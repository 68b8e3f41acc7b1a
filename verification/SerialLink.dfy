/** `internal/serial/serial.go`: one command on the wire, and the first well-formed frame that
    answers it. */
module SerialLink {
  import opened Basics
  import opened FrameGrammar
  import opened Lines
  import opened Framing

  /** The settings a transaction depends on, after defaults have been applied. */
  datatype Settings = Settings(readTimeout: int, responseTimeout: int, busQuietGap: int, busQuietMaxWait: int)

  datatype TxError = Cancelled | NotOpen | NoReply | Overrun | Faulted(fault: Fault) {
    /** IsPortError on the error a transaction returns. */
    predicate PortError() { NotOpen? || this == Faulted(PortGone) }
  }

  datatype TxResult = Value(value: string) | Error(error: TxError)

  /** How a transaction ends: its result, the time, the port's known read timeout, the
      context, whether the command was handed to the port, and what is left of the port's
      script. */
  datatype TxRun = TxRun(result: TxResult, now: int, limit: int, ctx: Ctx, written: bool, left: seq<ReadEvent>)

  const MAX_DRAIN_INTERRUPTS: nat := 10

  /** `drain`: an interrupted drain is resumed, a bounded number of times. */
  function DrainOutcome(drains: seq<Option<Fault>>, tries: nat): Option<Fault> {
    if tries == 0 then Some(Interrupted)
    else if drains == [] then None
    else if drains[0] == Some(Interrupted) then DrainOutcome(drains[1..], tries - 1)
    else drains[0]
  }

  /** `transmit`: wait for a quiet bus, discard stale input, write, drain. `None` is success. */
  datatype Transmitted = Transmitted(error: Option<TxError>, now: int, limit: int, ctx: Ctx, written: bool, left: seq<ReadEvent>)

  function TransmitRun(x: Exchange, cfg: Settings, now: int, limit: int, ctx: Ctx): Transmitted {
    var q := WaitQuiet(Feed(now, limit, x.quiet), ctx, cfg.busQuietGap, cfg.busQuietMaxWait);
    var error :=
      match q.outcome
      case QuietCancelled => Some(Cancelled)
      case QuietFailed(fault) => Some(Faulted(fault))
      case _ =>
        if x.flush.Some? then Some(Faulted(x.flush.value))
        else if x.write.Some? then Some(Faulted(x.write.value))
        else
          var drained := DrainOutcome(x.drains, MAX_DRAIN_INTERRUPTS);
          if drained.Some? then Some(Faulted(drained.value)) else None;
    var flushed := (q.outcome.Quiet? || q.outcome.Busy?) && x.flush.None?;
    Transmitted(error, q.feed.now, q.feed.limit, q.ctx, flushed, if flushed then x.reply else q.feed.script)
  }

  datatype Awaited = Awaited(result: TxResult, feed: Feed, ctx: Ctx)

  datatype ReplyStep = Answered(awaited: Awaited) | Discarded(buf: string, feed: Feed, ctx: Ctx)

  /** One turn of the reading loop of `Transact`. */
  function StepReply(buf: string, f: Feed, ctx: Ctx, deadline: int, readTimeout: int, want: string): (s: ReplyStep)
    ensures s.Discarded? ==> |s.buf| + |Data(s.feed.script)| < |buf| + |Data(f.script)|
  {
    if ctx.Done() then Answered(Awaited(Error(Cancelled), f, ctx.Checked()))
    else
      var r := NextFrame(buf, f, deadline, readTimeout);
      NextFrameConserves(buf, f, deadline, readTimeout);
      match r.outcome
      case TimedOut => Answered(Awaited(Error(NoReply), r.feed, ctx.Checked()))
      case Overflow(_) => Answered(Awaited(Error(Overrun), r.feed, ctx.Checked()))
      case Failed(fault) => Answered(Awaited(Error(Faulted(fault)), r.feed, ctx.Checked()))
      case Frame(raw) =>
        FrameShortens(buf + Data(f.script), raw, r.buf, Data(r.feed.script));
        var answer := ParseResponse(TrimCR(raw), want);
        if answer.Some? then Answered(Awaited(Value(answer.value), r.feed, ctx.Checked()))
        else Discarded(r.buf, r.feed, ctx.Checked())
  }

  /** The reading loop of `Transact`. */
  function AwaitReply(buf: string, f: Feed, ctx: Ctx, deadline: int, readTimeout: int, want: string): Awaited
    decreases |buf| + |Data(f.script)|
  {
    match StepReply(buf, f, ctx, deadline, readTimeout, want)
    case Answered(awaited) => awaited
    case Discarded(rest, later, checked) => AwaitReply(rest, later, checked, deadline, readTimeout, want)
  }

  lemma ReplyUnfolds(buf: string, f: Feed, ctx: Ctx, deadline: int, readTimeout: int, want: string, s: ReplyStep)
    requires s == StepReply(buf, f, ctx, deadline, readTimeout, want)
    ensures s.Answered? ==> AwaitReply(buf, f, ctx, deadline, readTimeout, want) == s.awaited
    ensures s.Discarded? ==> AwaitReply(buf, f, ctx, deadline, readTimeout, want) == AwaitReply(s.buf, s.feed, s.ctx, deadline, readTimeout, want)
  {
  }

  lemma FrameShortens(before: string, raw: string, buf: string, data: string)
    requires before == FrameOutcome.Frame(raw).Bytes() + buf + data
    ensures |buf| + |data| < |before|
  {
  }

  /** Awaiting the answer to a command that has been transmitted. */
  function AwaitAfter(cfg: Settings, t: Transmitted, command: string): Awaited {
    AwaitReply("", Feed(t.now, t.limit, t.left), t.ctx, t.now + cfg.responseTimeout, cfg.readTimeout, CommandPrefix(command))
  }

  /** The exchange itself: the command goes out, then its answer is awaited. */
  function Converse(x: Exchange, cfg: Settings, now: int, limit: int, ctx: Ctx, command: string): TxRun {
    var t := TransmitRun(x, cfg, now, limit, ctx);
    if t.error.Some? then TxRun(Error(t.error.value), t.now, t.limit, t.ctx, t.written, t.left)
    else
      var a := AwaitAfter(cfg, t, command);
      TxRun(a.result, a.feed.now, a.feed.limit, a.ctx, true, a.feed.script)
  }

  lemma ConverseFails(x: Exchange, cfg: Settings, now: int, limit: int, ctx: Ctx, command: string, t: Transmitted)
    requires t == TransmitRun(x, cfg, now, limit, ctx) && t.error.Some?
    ensures Converse(x, cfg, now, limit, ctx, command) == TxRun(Error(t.error.value), t.now, t.limit, t.ctx, t.written, t.left)
  {
  }

  lemma ConverseAwaits(x: Exchange, cfg: Settings, now: int, limit: int, ctx: Ctx, command: string, t: Transmitted, a: Awaited)
    requires t == TransmitRun(x, cfg, now, limit, ctx) && t.error.None? && a == AwaitAfter(cfg, t, command)
    ensures Converse(x, cfg, now, limit, ctx, command) == TxRun(a.result, a.feed.now, a.feed.limit, a.ctx, true, a.feed.script)
    ensures t.written && t.left == x.reply
  {
  }

  /** `Transact` on an open port. */
  function TransactRun(x: Exchange, cfg: Settings, now: int, limit: int, ctx: Ctx, command: string): TxRun {
    if ctx.Done() then TxRun(Error(Cancelled), now, limit, ctx.Checked(), false, x.quiet)
    else Converse(x, cfg, now, limit, ctx.Checked(), command)
  }

  // ---- first match -----------------------------------------------------------------

  /** The value of the first line of a stream that answers `want`. */
  function FirstMatch(lines: seq<string>, want: string): Option<string> {
    if lines == [] then None
    else
      var answer := ParseResponse(TrimCR(lines[0]), want);
      if answer.Some? then answer else FirstMatch(lines[1..], want)
  }

  lemma FirstMatchAfter(line: string, s: Scanned, want: string)
    ensures FirstMatch(s.After([line]).lines, want) ==
      if ParseResponse(TrimCR(line), want).Some? then ParseResponse(TrimCR(line), want) else FirstMatch(s.lines, want)
  {
    assert ([line] + s.lines)[1..] == s.lines;
  }

  /** The part of a stream that has been read once `left` is what remains of the script. */
  function ReadSoFar(stream: string, left: seq<ReadEvent>): string
    requires |Data(left)| <= |stream|
  {
    stream[..|stream| - |Data(left)|]
  }

  /** "Split what was read at newlines, take the first match": a value is the first match in
      what has been read; an error other than a cancellation leaves no match in it. */
  ghost predicate RefinesFirstMatch(stream: string, a: Awaited, want: string) {
    && |Data(a.feed.script)| <= |stream|
    && var found := FirstMatch(Scan(ReadSoFar(stream, a.feed.script)).lines, want);
       match a.result
       case Value(v) => found == Some(v)
       case Error(e) => e.Cancelled? || found == None
  }

  lemma UnmatchedLineFirst(raw: string, later: string, a: Awaited, want: string)
    requires '\n' !in raw && ParseResponse(TrimCR(raw), want).None? && RefinesFirstMatch(later, a, want)
    ensures RefinesFirstMatch(raw + "\n" + later, a, want)
  {
    var soFar := ReadSoFar(later, a.feed.script);
    assert ReadSoFar(raw + "\n" + later, a.feed.script) == raw + "\n" + soFar;
    ScanLine(raw, soFar);
    FirstMatchAfter(raw, Scan(soFar), want);
  }

  lemma MatchedLineFirst(raw: string, later: string, a: Awaited, want: string)
    requires '\n' !in raw && a.result.Value? && ParseResponse(TrimCR(raw), want) == Some(a.result.value)
    requires |Data(a.feed.script)| <= |later|
    ensures RefinesFirstMatch(raw + "\n" + later, a, want)
  {
    var soFar := ReadSoFar(later, a.feed.script);
    assert ReadSoFar(raw + "\n" + later, a.feed.script) == raw + "\n" + soFar;
    ScanLine(raw, soFar);
    FirstMatchAfter(raw, Scan(soFar), want);
  }

  lemma NoLineRead(stream: string, read: string, a: Awaited, want: string)
    requires stream == read + Data(a.feed.script) && '\n' !in read && a.result.Error?
    ensures RefinesFirstMatch(stream, a, want)
  {
    assert ReadSoFar(stream, a.feed.script) == read;
    ScanPlain(read);
  }

  lemma {:induction false} AwaitReplyIsFirstMatch(buf: string, f: Feed, ctx: Ctx, deadline: int, readTimeout: int, want: string)
    ensures RefinesFirstMatch(buf + Data(f.script), AwaitReply(buf, f, ctx, deadline, readTimeout, want), want)
    decreases |buf| + |Data(f.script)|
  {
    if !ctx.Done() {
      hide NextFrame, ParseResponse, TrimCR, RefinesFirstMatch, Data, Scan;
      var a := AwaitReply(buf, f, ctx, deadline, readTimeout, want);
      var r := NextFrame(buf, f, deadline, readTimeout);
      NextFrameConserves(buf, f, deadline, readTimeout);
      var stream := buf + Data(f.script);
      if r.outcome.Frame? {
        var raw, later := r.outcome.raw, r.buf + Data(r.feed.script);
        FrameShortens(stream, raw, r.buf, Data(r.feed.script));
        assert stream == raw + "\n" + later;
        if ParseResponse(TrimCR(raw), want).Some? {
          MatchedLineFirst(raw, later, a, want);
        } else {
          AwaitReplyIsFirstMatch(r.buf, r.feed, ctx.Checked(), deadline, readTimeout, want);
          UnmatchedLineFirst(raw, later, a, want);
        }
      } else {
        NoLineRead(stream, r.outcome.Bytes() + r.buf, a, want);
      }
    }
  }

  lemma AwaitAfterRefines(cfg: Settings, t: Transmitted, command: string)
    ensures RefinesFirstMatch(Data(t.left), AwaitAfter(cfg, t, command), CommandPrefix(command))
  {
    hide RefinesFirstMatch, AwaitReply, Data, CommandPrefix;
    AwaitReplyIsFirstMatch("", Feed(t.now, t.limit, t.left), t.ctx, t.now + cfg.responseTimeout, cfg.readTimeout, CommandPrefix(command));
    assert "" + Data(t.left) == Data(t.left);
  }

  /** With `read` for what was read after the flush: a value is the one of the first line in
      `read` that answers the command, which was written; giving up for lack of a reply, or on
      an overrun, means that no line in `read` does. */
  ghost predicate FindsFirst(x: Exchange, command: string, run: TxRun) {
    run.result.Value? || run.result == Error(NoReply) || run.result == Error(Overrun) ==>
      run.written && |Data(run.left)| <= |Data(x.reply)| &&
      FirstMatch(Scan(ReadSoFar(Data(x.reply), run.left)).lines, CommandPrefix(command)) == if run.result.Value? then Some(run.result.value) else None
  }

  /** A value was received by the deadline, and nobody gives up before it. */
  predicate KeepsDeadline(cfg: Settings, sent: int, run: TxRun) {
    && (run.result.Value? ==> run.now <= Max(sent, sent + cfg.responseTimeout))
    && (run.result == Error(NoReply) && cfg.readTimeout > 0 ==> sent + cfg.responseTimeout <= run.now)
  }

  lemma TransmitErrors(x: Exchange, cfg: Settings, now: int, limit: int, ctx: Ctx)
    ensures var error := TransmitRun(x, cfg, now, limit, ctx).error; error.Some? ==> error.value.Cancelled? || error.value.Faulted?
  {
  }

  lemma RefinedFindsFirst(x: Exchange, command: string, a: Awaited, run: TxRun)
    requires RefinesFirstMatch(Data(x.reply), a, CommandPrefix(command))
    requires run.result == a.result && run.written && run.left == a.feed.script
    ensures FindsFirst(x, command, run)
  {
  }

  lemma ConverseFindsFirst(x: Exchange, cfg: Settings, now: int, limit: int, ctx: Ctx, command: string, t: Transmitted)
    requires t == TransmitRun(x, cfg, now, limit, ctx)
    ensures FindsFirst(x, command, Converse(x, cfg, now, limit, ctx, command))
  {
    if t.error.Some? {
      ConverseFails(x, cfg, now, limit, ctx, command, t);
      TransmitErrors(x, cfg, now, limit, ctx);
    } else {
      ConverseAwaits(x, cfg, now, limit, ctx, command, t, AwaitAfter(cfg, t, command));
      AwaitAfterRefines(cfg, t, command);
      RefinedFindsFirst(x, command, AwaitAfter(cfg, t, command), Converse(x, cfg, now, limit, ctx, command));
    }
  }

  lemma ConverseKeepsDeadline(x: Exchange, cfg: Settings, now: int, limit: int, ctx: Ctx, command: string, t: Transmitted)
    requires t == TransmitRun(x, cfg, now, limit, ctx)
    ensures KeepsDeadline(cfg, t.now, Converse(x, cfg, now, limit, ctx, command))
  {
    if t.error.Some? {
      ConverseFails(x, cfg, now, limit, ctx, command, t);
      TransmitErrors(x, cfg, now, limit, ctx);
    } else {
      ConverseAwaits(x, cfg, now, limit, ctx, command, t, AwaitAfter(cfg, t, command));
      AwaitAfterEnds(cfg, t, command);
    }
  }

  /** Transact refines first match, with its deadline: what it returns is the first match among
      the bytes received after the flush and by the deadline, so without a matching line by
      then it returns an error. */
  lemma TransactIsFirstMatch(x: Exchange, cfg: Settings, now: int, limit: int, ctx: Ctx, command: string)
    ensures var run := TransactRun(x, cfg, now, limit, ctx, command);
      FindsFirst(x, command, run) && KeepsDeadline(cfg, TransmitRun(x, cfg, now, limit, ctx.Checked()).now, run)
  {
    if !ctx.Done() {
      var t := TransmitRun(x, cfg, now, limit, ctx.Checked());
      ConverseFindsFirst(x, cfg, now, limit, ctx.Checked(), command, t);
      ConverseKeepsDeadline(x, cfg, now, limit, ctx.Checked(), command, t);
    }
  }

  // ---- and completely --------------------------------------------------------------

  /** No line up to the first match is longer than a frame may be. */
  predicate LinesFit(s: string, want: string)
    decreases |s|
  {
    var i := NewlineAt(s);
    i <= MAX_FRAME && (i < |s| && ParseResponse(TrimCR(s[..i]), want).None? ==> LinesFit(s[i + 1..], want))
  }

  /** What a transaction owes for all that was heard by its deadline: the first match, or else
      the error that ended the reading, or else that there was no reply. */
  function ReplyTo(fault: Option<Fault>, stream: string, want: string): TxResult {
    var found := FirstMatch(Scan(stream).lines, want);
    if found.Some? then Value(found.value) else Unanswered(fault)
  }

  function Unanswered(fault: Option<Fault>): TxResult { Error(if fault.Some? then Faulted(fault.value) else NoReply) }

  /** Unless its context was found done, a call gives what it owes. */
  predicate GivesOrCancelled(result: TxResult, ctx: Ctx, owed: TxResult) {
    result == owed || (result == Error(Cancelled) && ctx.Done())
  }

  lemma LinesFitNext(s: string, want: string)
    requires LinesFit(s, want)
    ensures NewlineAt(s) <= MAX_FRAME
    ensures NewlineAt(s) < |s| && ParseResponse(TrimCR(s[..NewlineAt(s)]), want).None? ==> LinesFit(s[NewlineAt(s) + 1..], want)
  {
  }

  lemma NoLineHeard(fault: Option<Fault>, stream: string, want: string)
    requires NewlineAt(stream) == |stream|
    ensures ReplyTo(fault, stream, want) == Unanswered(fault)
  {
    ScanPlain(stream);
  }

  lemma LineHeard(fault: Option<Fault>, stream: string, want: string, later: string)
    requires NewlineAt(stream) < |stream| && later == stream[NewlineAt(stream) + 1..]
    ensures var answer := ParseResponse(TrimCR(stream[..NewlineAt(stream)]), want);
      ReplyTo(fault, stream, want) == if answer.Some? then Value(answer.value) else ReplyTo(fault, later, want)
  {
    var raw := stream[..NewlineAt(stream)];
    assert stream == raw + "\n" + later;
    ScanLine(raw, later);
    FirstMatchAfter(raw, Scan(later), want);
  }

  /** What is owed when the next line has been served. */
  lemma OwedAfterLine(buf: string, heard: Listened, r: FrameRun, left: Listened, want: string)
    requires LinesFit(buf + heard.data, want) && ServesNextLine(buf, heard, r, left)
    ensures r.outcome.Frame? && ParseResponse(TrimCR(r.outcome.raw), want).Some? ==>
      ReplyTo(heard.fault, buf + heard.data, want) == Value(ParseResponse(TrimCR(r.outcome.raw), want).value)
    ensures r.outcome.Frame? && ParseResponse(TrimCR(r.outcome.raw), want).None? ==>
      LinesFit(r.buf + left.data, want) && ReplyTo(heard.fault, buf + heard.data, want) == ReplyTo(left.fault, r.buf + left.data, want)
    ensures !r.outcome.Frame? ==>
      r.outcome == (if heard.fault.Some? then Failed(heard.fault.value) else TimedOut) && ReplyTo(heard.fault, buf + heard.data, want) == Unanswered(heard.fault)
  {
    var stream := buf + heard.data;
    LinesFitNext(stream, want);
    if NewlineAt(stream) == |stream| {
      NoLineHeard(heard.fault, stream, want);
    } else {
      LineHeard(heard.fault, stream, want, r.buf + left.data);
    }
  }

  /** One turn gives what is owed, or leaves it owed. */
  lemma TurnIsComplete(buf: string, f: Feed, ctx: Ctx, deadline: int, readTimeout: int, want: string)
    requires LinesFit(buf + ListenUntil(f, deadline, readTimeout).data, want)
    ensures var heard := ListenUntil(f, deadline, readTimeout);
      var owed := ReplyTo(heard.fault, buf + heard.data, want);
      match StepReply(buf, f, ctx, deadline, readTimeout, want)
      case Answered(a) => GivesOrCancelled(a.result, a.ctx, owed) && a.ctx == ctx.Checked()
      case Discarded(rest, later, checked) =>
        var left := ListenUntil(later, deadline, readTimeout);
        LinesFit(rest + left.data, want) && owed == ReplyTo(left.fault, rest + left.data, want) && checked == ctx.Checked()
  {
    if !ctx.Done() {
      var r := NextFrame(buf, f, deadline, readTimeout);
      LinesFitNext(buf + ListenUntil(f, deadline, readTimeout).data, want);
      FrameIsExact(buf, f, deadline, readTimeout);
      OwedAfterLine(buf, ListenUntil(f, deadline, readTimeout), r, ListenUntil(r.feed, deadline, readTimeout), want);
      hide LinesFit, ReplyTo, ListenUntil, NewlineAt, ParseResponse, NextFrame, ServesNextLine, TrimCR, Data;
    }
  }

  /** Completeness of the reading loop. */
  lemma {:induction false} AwaitReplyIsComplete(buf: string, f: Feed, ctx: Ctx, deadline: int, readTimeout: int, want: string)
    requires LinesFit(buf + ListenUntil(f, deadline, readTimeout).data, want)
    ensures var a, heard := AwaitReply(buf, f, ctx, deadline, readTimeout, want), ListenUntil(f, deadline, readTimeout);
      GivesOrCancelled(a.result, a.ctx, ReplyTo(heard.fault, buf + heard.data, want)) && (ctx.Never? ==> a.ctx.Never?)
    decreases |buf| + |Data(f.script)|
  {
    hide LinesFit, ReplyTo, ListenUntil, StepReply, AwaitReply, Data;
    var s := StepReply(buf, f, ctx, deadline, readTimeout, want);
    TurnIsComplete(buf, f, ctx, deadline, readTimeout, want);
    ReplyUnfolds(buf, f, ctx, deadline, readTimeout, want, s);
    if s.Discarded? {
      AwaitReplyIsComplete(s.buf, s.feed, s.ctx, deadline, readTimeout, want);
    }
  }

  /** The fault of a transmission that the quiet wait let through. */
  function TransmitFault(x: Exchange): Option<Fault> {
    if x.flush.Some? then x.flush else if x.write.Some? then x.write else DrainOutcome(x.drains, MAX_DRAIN_INTERRUPTS)
  }

  lemma TransmitIsComplete(x: Exchange, cfg: Settings, now: int, limit: int, ctx: Ctx)
    requires Faultless(x.quiet)
    ensures var t := TransmitRun(x, cfg, now, limit, ctx);
      && (t.error == (if TransmitFault(x).Some? then Some(Faulted(TransmitFault(x).value)) else None) || (t.error == Some(Cancelled) && t.ctx.Done()))
      && (ctx.Never? ==> t.ctx.Never?)
  {
    WaitQuietSucceeds(Feed(now, limit, x.quiet), ctx, cfg.busQuietGap, now + cfg.busQuietMaxWait, now);
  }

  /** What is heard after a transmission, up to the response deadline. */
  function HeardAfter(cfg: Settings, t: Transmitted): Listened {
    ListenUntil(Feed(t.now, t.limit, t.left), t.now + cfg.responseTimeout, cfg.readTimeout)
  }

  /** What an exchange owes. */
  function Owed(x: Exchange, cfg: Settings, t: Transmitted, command: string): TxResult {
    if TransmitFault(x).Some? then Error(Faulted(TransmitFault(x).value))
    else ReplyTo(HeardAfter(cfg, t).fault, HeardAfter(cfg, t).data, CommandPrefix(command))
  }

  lemma AwaitAfterIsComplete(cfg: Settings, t: Transmitted, command: string)
    requires LinesFit(HeardAfter(cfg, t).data, CommandPrefix(command))
    ensures var a, heard := AwaitAfter(cfg, t, command), HeardAfter(cfg, t);
      GivesOrCancelled(a.result, a.ctx, ReplyTo(heard.fault, heard.data, CommandPrefix(command))) && (t.ctx.Never? ==> a.ctx.Never?)
  {
    hide LinesFit, ReplyTo, ListenUntil, AwaitReply, CommandPrefix;
    var heard := HeardAfter(cfg, t);
    assert "" + heard.data == heard.data;
    AwaitReplyIsComplete("", Feed(t.now, t.limit, t.left), t.ctx, t.now + cfg.responseTimeout, cfg.readTimeout, CommandPrefix(command));
  }

  lemma ConverseIsComplete(x: Exchange, cfg: Settings, now: int, limit: int, ctx: Ctx, command: string, t: Transmitted)
    requires t == TransmitRun(x, cfg, now, limit, ctx) && Faultless(x.quiet) && LinesFit(HeardAfter(cfg, t).data, CommandPrefix(command))
    ensures var run := Converse(x, cfg, now, limit, ctx, command);
      GivesOrCancelled(run.result, run.ctx, Owed(x, cfg, t, command)) && (ctx.Never? ==> run.ctx.Never?)
  {
    TransmitIsComplete(x, cfg, now, limit, ctx);
    hide TransmitRun, AwaitAfter, ReplyTo, HeardAfter, LinesFit, TransmitFault;
    if t.error.Some? {
      ConverseFails(x, cfg, now, limit, ctx, command, t);
    } else {
      AwaitAfterIsComplete(cfg, t, command);
      ConverseAwaits(x, cfg, now, limit, ctx, command, t, AwaitAfter(cfg, t, command));
    }
  }

  /** Completeness of Transact, whether the bus turns quiet or stays busy. If no read of the quiet
      wait fails and no line up to the match is overlong, the call returns the value of the first
      line among all that is heard by the deadline that answers the command; or else the fault it
      met; or else that there was no reply. It returns anything else only for a context that was
      found done, which one that nobody cancels never is. */
  lemma TransactIsComplete(x: Exchange, cfg: Settings, now: int, limit: int, ctx: Ctx, command: string)
    requires var t := TransmitRun(x, cfg, now, limit, ctx.Checked());
      Faultless(x.quiet) && LinesFit(HeardAfter(cfg, t).data, CommandPrefix(command))
    ensures var run, t := TransactRun(x, cfg, now, limit, ctx, command), TransmitRun(x, cfg, now, limit, ctx.Checked());
      && GivesOrCancelled(run.result, run.ctx, Owed(x, cfg, t, command)) && (ctx.Never? ==> run.ctx.Never?)
      && (ctx.Done() ==> run.result == Error(Cancelled) && !run.written && run.now == now)
  {
    if !ctx.Done() {
      ConverseIsComplete(x, cfg, now, limit, ctx.Checked(), command, TransmitRun(x, cfg, now, limit, ctx.Checked()));
    }
  }

  lemma {:induction false} AwaitCancelledIsDone(buf: string, f: Feed, ctx: Ctx, deadline: int, readTimeout: int, want: string)
    ensures var a := AwaitReply(buf, f, ctx, deadline, readTimeout, want);
      (a.result == Error(Cancelled) ==> a.ctx.Done()) && (ctx.Done() ==> a == Awaited(Error(Cancelled), f, ctx))
    decreases |buf| + |Data(f.script)|
  {
    hide NextFrame;
    var s := StepReply(buf, f, ctx, deadline, readTimeout, want);
    ReplyUnfolds(buf, f, ctx, deadline, readTimeout, want, s);
    if s.Discarded? {
      AwaitCancelledIsDone(s.buf, s.feed, s.ctx, deadline, readTimeout, want);
    }
  }

  lemma TransmitErrorsMean(x: Exchange, cfg: Settings, now: int, limit: int, ctx: Ctx)
    ensures var t, q := TransmitRun(x, cfg, now, limit, ctx), WaitQuiet(Feed(now, limit, x.quiet), ctx, cfg.busQuietGap, cfg.busQuietMaxWait);
      && (t.error == Some(Cancelled) ==> t.ctx.Done())
      && (q.outcome.QuietFailed? ==> t.error == Some(Faulted(q.outcome.fault)) && !t.written)
  {
    QuietCancelledIsDone(Feed(now, limit, x.quiet), ctx, cfg.busQuietGap, now + cfg.busQuietMaxWait, now);
    hide WaitQuietFrom, DrainOutcome;
  }

  lemma ConverseErrorsMean(x: Exchange, cfg: Settings, now: int, limit: int, ctx: Ctx, command: string)
    ensures var run, q := Converse(x, cfg, now, limit, ctx, command), WaitQuiet(Feed(now, limit, x.quiet), ctx, cfg.busQuietGap, cfg.busQuietMaxWait);
      && (run.result == Error(Cancelled) ==> run.ctx.Done())
      && (q.outcome.QuietFailed? ==> run.result == Error(Faulted(q.outcome.fault)) && !run.written)
  {
    var t := TransmitRun(x, cfg, now, limit, ctx);
    TransmitErrorsMean(x, cfg, now, limit, ctx);
    hide WaitQuiet, AwaitReply, Converse, TransmitRun, CommandPrefix;
    if t.error.Some? {
      ConverseFails(x, cfg, now, limit, ctx, command, t);
    } else {
      ConverseAwaits(x, cfg, now, limit, ctx, command, t, AwaitAfter(cfg, t, command));
      AwaitCancelledIsDone("", Feed(t.now, t.limit, t.left), t.ctx, t.now + cfg.responseTimeout, cfg.readTimeout, CommandPrefix(command));
    }
  }

  /** A transaction is cancelled only when its context was found done; and a wait that the port
      ended fails it with the port's own error, before anything is written. */
  lemma CancelledIsDone(x: Exchange, cfg: Settings, now: int, limit: int, ctx: Ctx, command: string)
    ensures var run, q := TransactRun(x, cfg, now, limit, ctx, command), WaitQuiet(Feed(now, limit, x.quiet), ctx.Checked(), cfg.busQuietGap, cfg.busQuietMaxWait);
      && (run.result == Error(Cancelled) ==> run.ctx.Done())
      && (!ctx.Done() && q.outcome.QuietFailed? ==> run.result == Error(Faulted(q.outcome.fault)) && !run.written)
  {
    ConverseErrorsMean(x, cfg, now, limit, ctx.Checked(), command);
    hide WaitQuiet, Converse;
  }

  /** A frame on a line of its own is an answer. */
  lemma FrameAnswers(f: FrameGrammar.Frame)
    requires f.Ok()
    ensures var raw := f.Text() + "\r"; '\n' !in raw && ParseResponse(TrimCR(raw), f.Prefix()) == Some(f.number)
  {
    var raw := f.Text() + "\r";
    FrameEdges(f);
    assert raw[..|raw| - 1] == f.Text() && TrimCR(raw) == f.Text();
    FrameIsAccepted("", f, "");
    assert "" + f.Text() + "" == f.Text();
    ParseOneLine(f.Text(), f.Prefix());
  }

  /** A stream that begins with an answer that fits. */
  lemma AnswerFirst(fault: Option<Fault>, raw: string, more: string, want: string, v: string)
    requires '\n' !in raw && |raw| <= MAX_FRAME && ParseResponse(TrimCR(raw), want) == Some(v)
    ensures var stream := raw + "\n" + more; LinesFit(stream, want) && ReplyTo(fault, stream, want) == Value(v)
  {
    var stream := raw + "\n" + more;
    NewlineIsAt(stream, |raw|);
    assert stream[..|raw|] == raw && stream[|raw| + 1..] == more;
    hide ParseResponse, TrimCR, NewlineAt, ReplyTo;
    LineHeard(fault, stream, want, more);
  }

  /** So a whole exchange works: in a context that nobody cancels, on a port that does not fail,
      a frame for the command that comes first within the deadline is what the call returns. */
  lemma AnswerIsReturned(x: Exchange, cfg: Settings, now: int, limit: int, command: string, f: FrameGrammar.Frame, more: string)
    requires Faultless(x.quiet) && TransmitFault(x).None? && f.Ok() && f.Prefix() == CommandPrefix(command) && |f.Text()| < MAX_FRAME
    requires HeardAfter(cfg, TransmitRun(x, cfg, now, limit, Never)).data == f.Text() + "\r\n" + more
    ensures TransactRun(x, cfg, now, limit, Never, command).result == Value(f.number)
  {
    var t := TransmitRun(x, cfg, now, limit, Never);
    FrameAnswers(f);
    hide AwaitReply, TransmitRun, HeardAfter, ParseResponse, ReplyTo, CommandPrefix, LinesFit, TransactRun;
    assert f.Text() + "\r\n" + more == (f.Text() + "\r") + "\n" + more;
    AnswerFirst(HeardAfter(cfg, t).fault, f.Text() + "\r", more, f.Prefix(), f.number);
    TransactIsComplete(x, cfg, now, limit, Never, command);
  }

  lemma {:induction false} FirstMatchOfMore(lines: seq<string>, more: seq<string>, want: string)
    requires FirstMatch(lines, want).Some?
    ensures FirstMatch(lines + more, want) == FirstMatch(lines, want)
  {
    assert (lines + more)[1..] == lines[1..] + more;
    if ParseResponse(TrimCR(lines[0]), want).None? {
      FirstMatchOfMore(lines[1..], more, want);
    }
  }

  /** Bytes that come later cannot change a match that is there already. */
  lemma MatchIsFinal(read: string, later: string, want: string)
    requires FirstMatch(Scan(read).lines, want).Some?
    ensures FirstMatch(Scan(read + later).lines, want) == FirstMatch(Scan(read).lines, want)
  {
    ScanAppend(read, later);
    FirstMatchOfMore(Scan(read).lines, Scan(Scan(read).rest + later).lines, want);
  }

  lemma ValueIsFinal(x: Exchange, cfg: Settings, now: int, limit: int, ctx: Ctx, command: string)
    ensures var run := TransactRun(x, cfg, now, limit, ctx, command);
      run.result.Value? ==> FirstMatch(Scan(Data(x.reply)).lines, CommandPrefix(command)) == Some(run.result.value)
  {
    var run := TransactRun(x, cfg, now, limit, ctx, command);
    TransactIsFirstMatch(x, cfg, now, limit, ctx, command);
    if run.result.Value? {
      var read := ReadSoFar(Data(x.reply), run.left);
      assert Data(x.reply) == read + Data(x.reply)[|read|..];
      MatchIsFinal(read, Data(x.reply)[|read|..], CommandPrefix(command));
    }
  }

  /** Neither what was heard before the flush nor how the reply was cut up can matter: two
      transactions that get the same bytes after the flush cannot return different values. */
  lemma ReplyBytesDecideTheValue(x: Exchange, y: Exchange, cfg: Settings, cfg': Settings, now: int, now': int,
                                 limit: int, limit': int, ctx: Ctx, ctx': Ctx, command: string)
    requires Data(x.reply) == Data(y.reply)
    ensures var a, b := TransactRun(x, cfg, now, limit, ctx, command).result, TransactRun(y, cfg', now', limit', ctx', command).result;
      a.Value? && b.Value? ==> a == b
  {
    ValueIsFinal(x, cfg, now, limit, ctx, command);
    ValueIsFinal(y, cfg', now', limit', ctx', command);
  }

  ghost predicate HasAnswer(lines: seq<string>, want: string, value: string) {
    exists line :: line in lines && ParseResponse(TrimCR(line), want) == Some(value)
  }

  /** What a transaction returns is a number a frame for this very command carried. */
  lemma ValueIsAnswer(x: Exchange, cfg: Settings, now: int, limit: int, ctx: Ctx, command: string)
    ensures var run := TransactRun(x, cfg, now, limit, ctx, command);
      run.result.Value? ==>
        && IsInteger(run.result.value) && |Data(run.left)| <= |Data(x.reply)|
        && HasAnswer(Scan(ReadSoFar(Data(x.reply), run.left)).lines, CommandPrefix(command), run.result.value)
  {
    var run := TransactRun(x, cfg, now, limit, ctx, command);
    if run.result.Value? {
      TransactIsFirstMatch(x, cfg, now, limit, ctx, command);
      var line := FirstMatchLine(Scan(ReadSoFar(Data(x.reply), run.left)).lines, CommandPrefix(command));
      AcceptedIsInteger(TrimCR(line), CommandPrefix(command));
    }
  }

  lemma {:induction false} FirstMatchLine(lines: seq<string>, want: string) returns (line: string)
    requires FirstMatch(lines, want).Some?
    ensures line in lines && ParseResponse(TrimCR(line), want) == FirstMatch(lines, want)
  {
    if ParseResponse(TrimCR(lines[0]), want).Some? {
      line := lines[0];
    } else {
      line := FirstMatchLine(lines[1..], want);
    }
  }

  /** An interrupted drain is no failure: fewer than ten interruptions never show. */
  lemma {:induction false} InterruptionsAreResumed(drains: seq<Option<Fault>>, k: nat, tries: nat)
    requires k < tries && k <= |drains|
    requires forall i :: 0 <= i < k ==> drains[i] == Some(Interrupted)
    requires k < |drains| ==> drains[k] != Some(Interrupted)
    ensures DrainOutcome(drains, tries) == if k < |drains| then drains[k] else None
    decreases k
  {
    if k > 0 {
      InterruptionsAreResumed(drains[1..], k - 1, tries - 1);
    }
  }

  /** The drain of a transmission survives nine interruptions in a row and not ten. */
  lemma DrainIsResumed(drains: seq<Option<Fault>>, k: nat)
    requires k <= |drains| && forall i :: 0 <= i < k ==> drains[i] == Some(Interrupted)
    requires k < |drains| ==> drains[k] != Some(Interrupted)
    ensures DrainOutcome(drains, MAX_DRAIN_INTERRUPTS) == if k >= 10 then Some(Interrupted) else if k < |drains| then drains[k] else None
  {
    if k < 10 {
      InterruptionsAreResumed(drains, k, MAX_DRAIN_INTERRUPTS);
    } else {
      InterruptionsRunOut(drains, MAX_DRAIN_INTERRUPTS);
    }
  }

  lemma {:induction false} InterruptionsRunOut(drains: seq<Option<Fault>>, tries: nat)
    requires tries <= |drains| && forall i :: 0 <= i < tries ==> drains[i] == Some(Interrupted)
    ensures DrainOutcome(drains, tries) == Some(Interrupted)
  {
    if tries > 0 {
      InterruptionsRunOut(drains[1..], tries - 1);
    }
  }

  // ---- how long a transaction takes ------------------------------------------------

  function LongestTransaction(cfg: Settings): int {
    Max(0, cfg.busQuietMaxWait + IDLE_POLL) + Max(0, cfg.responseTimeout + IDLE_POLL)
  }

  /** The times of one turn. */
  lemma StepReplyTimes(buf: string, f: Feed, ctx: Ctx, deadline: int, readTimeout: int, want: string)
    ensures match StepReply(buf, f, ctx, deadline, readTimeout, want)
      case Discarded(_, later, _) => f.now <= later.now <= Max(f.now, deadline)
      case Answered(a) =>
        && f.now <= a.feed.now <= Max(f.now, deadline + IDLE_POLL)
        && (a.result == Error(NoReply) && readTimeout > 0 ==> deadline <= a.feed.now)
        && (a.result.Value? ==> a.feed.now <= Max(f.now, deadline))
  {
    if !ctx.Done() {
      hide NextFrame, ParseResponse, TrimCR;
      if NextFrame(buf, f, deadline, readTimeout).outcome.Frame? {
        FrameInTime(buf, f, deadline, readTimeout);
      }
    }
  }

  lemma {:induction false} AwaitReplyEnds(buf: string, f: Feed, ctx: Ctx, deadline: int, readTimeout: int, want: string)
    ensures var a := AwaitReply(buf, f, ctx, deadline, readTimeout, want);
      && f.now <= a.feed.now <= Max(f.now, deadline + IDLE_POLL)
      && (a.result == Error(NoReply) && readTimeout > 0 ==> deadline <= a.feed.now)
      && (a.result.Value? ==> a.feed.now <= Max(f.now, deadline))
    decreases |buf| + |Data(f.script)|
  {
    hide StepReply, AwaitReply, Data;
    var s := StepReply(buf, f, ctx, deadline, readTimeout, want);
    StepReplyTimes(buf, f, ctx, deadline, readTimeout, want);
    ReplyUnfolds(buf, f, ctx, deadline, readTimeout, want, s);
    if s.Discarded? {
      AwaitReplyEnds(s.buf, s.feed, s.ctx, deadline, readTimeout, want);
    }
  }

  lemma AwaitAfterEnds(cfg: Settings, t: Transmitted, command: string)
    ensures var a, deadline := AwaitAfter(cfg, t, command), t.now + cfg.responseTimeout;
      && t.now <= a.feed.now <= Max(t.now, deadline + IDLE_POLL)
      && (a.result == Error(NoReply) && cfg.readTimeout > 0 ==> deadline <= a.feed.now)
      && (a.result.Value? ==> a.feed.now <= Max(t.now, deadline))
  {
    AwaitReplyEnds("", Feed(t.now, t.limit, t.left), t.ctx, t.now + cfg.responseTimeout, cfg.readTimeout, CommandPrefix(command));
  }

  lemma TransmitEnds(x: Exchange, cfg: Settings, now: int, limit: int, ctx: Ctx)
    ensures now <= TransmitRun(x, cfg, now, limit, ctx).now <= now + Max(0, cfg.busQuietMaxWait + IDLE_POLL)
  {
  }

  lemma ConverseEnds(x: Exchange, cfg: Settings, now: int, limit: int, ctx: Ctx, command: string)
    ensures now <= Converse(x, cfg, now, limit, ctx, command).now <= now + LongestTransaction(cfg)
  {
    var t := TransmitRun(x, cfg, now, limit, ctx);
    TransmitEnds(x, cfg, now, limit, ctx);
    if t.error.Some? {
      ConverseFails(x, cfg, now, limit, ctx, command, t);
    } else {
      ConverseAwaits(x, cfg, now, limit, ctx, command, t, AwaitAfter(cfg, t, command));
      AwaitAfterEnds(cfg, t, command);
    }
  }

  /** Every transaction ends in time, whatever is on the bus. */
  lemma TransactEnds(x: Exchange, cfg: Settings, now: int, limit: int, ctx: Ctx, command: string)
    ensures now <= TransactRun(x, cfg, now, limit, ctx, command).now <= now + LongestTransaction(cfg)
  {
    ConverseEnds(x, cfg, now, limit, ctx.Checked(), command);
  }

  /** A bus that stays busy up to the limit, and then a unit that does not answer. */
  function SlowestExchange(cfg: Settings): Exchange
    requires cfg.busQuietGap >= 2 && cfg.busQuietMaxWait >= 2 && cfg.readTimeout >= IDLE_POLL && cfg.responseTimeout > 0
  {
    Exchange(BusyBus(cfg.busQuietGap, cfg.busQuietMaxWait), None, None, [], SilentUnit(cfg.readTimeout, cfg.responseTimeout))
  }

  /** Awaiting the answer of a silent unit. */
  lemma SilenceIsNoReply(cfg: Settings, t: Transmitted, command: string)
    requires cfg.readTimeout >= IDLE_POLL && cfg.responseTimeout > 0
    requires t.left == SilentUnit(cfg.readTimeout, cfg.responseTimeout) && t.ctx == Never
    ensures var a := AwaitAfter(cfg, t, command);
      a.result == Error(NoReply) && a.feed.now == t.now + cfg.responseTimeout + IDLE_POLL && a.ctx == Never
  {
    var f, deadline, want := Feed(t.now, t.limit, t.left), t.now + cfg.responseTimeout, CommandPrefix(command);
    SilentUnitOverruns(t.now, t.limit, cfg.readTimeout, deadline);
    ReplyUnfolds("", f, Never, deadline, cfg.readTimeout, want, StepReply("", f, Never, deadline, cfg.readTimeout, want));
  }

  lemma BusyBusTransmits(x: Exchange, cfg: Settings, now: int, limit: int)
    requires cfg.busQuietGap >= 2 && cfg.busQuietMaxWait >= 2
    requires x.quiet == BusyBus(cfg.busQuietGap, cfg.busQuietMaxWait) && x.flush.None? && x.write.None? && x.drains == []
    ensures var t := TransmitRun(x, cfg, now, limit, Never);
      t.error.None? && t.now == now + cfg.busQuietMaxWait + IDLE_POLL && t.ctx == Never && t.left == x.reply
  {
    BusyBusOverruns(now, limit, cfg.busQuietGap, now + cfg.busQuietMaxWait);
  }

  /** The bound is reached: one idle poll is overrun in each of the two waits. */
  lemma SlowestExchangeIsSlowest(cfg: Settings, now: int, limit: int, command: string)
    requires cfg.busQuietGap >= 2 && cfg.busQuietMaxWait >= 2 && cfg.readTimeout >= IDLE_POLL && cfg.responseTimeout > 0
    ensures var run := TransactRun(SlowestExchange(cfg), cfg, now, limit, Never, command);
      run.result == Error(NoReply) && run.now == now + LongestTransaction(cfg) && run.ctx == Never
  {
    var x := SlowestExchange(cfg);
    var t := TransmitRun(x, cfg, now, limit, Never);
    BusyBusTransmits(x, cfg, now, limit);
    SilenceIsNoReply(cfg, t, command);
    ConverseAwaits(x, cfg, now, limit, Never, command, t, AwaitAfter(cfg, t, command));
  }

  // ---- the program -----------------------------------------------------------------

  /** With no exchange left in its script, the port is silent. */
  function First(exchanges: seq<Exchange>): Exchange { if exchanges == [] then SILENCE else exchanges[0] }

  /** `SerialPort`. `exchanges` holds how the port behaves in the transactions to come; with
      none left it is silent. `openings` says which attempts to open the device fail. */
  class SerialPort {
    const cfg: Settings
    var exchanges: seq<Exchange>
    var openings: seq<bool>
    var now: int
    var port: Port?
    var fr: FrameReader?
    var open: bool
    var healthy: bool
    /** Every command line handed to a port, in order. */
    ghost var sent: seq<string>

    ghost predicate Valid()
      reads this, port, fr
    {
      && (healthy ==> open)
      && (open ==>
        && port != null && fr != null && fr.port == port && fr.readTimeout == cfg.readTimeout && fr.Valid()
        && port.now == now)
    }

    ghost function Footprint(): set<object>
      reads this, fr
    {
      {this} + (if port != null then {port} else {}) + (if fr != null then {fr, fr.scratch} else {})
    }

    /** The read timeout the port is known to be set to. */
    ghost function Limit(): int
      reads this, fr
    {
      if fr != null then fr.portTimeout else 0
    }

    constructor (cfg: Settings, exchanges: seq<Exchange>, openings: seq<bool>)
      ensures Valid() && !open && this.cfg == cfg && this.exchanges == exchanges && sent == []
    {
      this.cfg, this.exchanges, this.openings := cfg, exchanges, openings;
      now, port, fr, open, healthy, sent := 0, null, null, false, false, [];
    }

    /** `openLocked`: the only place that makes a port healthy. */
    method Open() returns (ok: bool)
      requires Valid()
      modifies this
      ensures Valid() && sent == old(sent) && exchanges == old(exchanges)
      ensures old(open) ==> ok && healthy == old(healthy)
      ensures !old(open) ==> ok == (old(openings) == [] || old(openings)[0])
      ensures !old(open) ==> openings == if old(openings) == [] then [] else old(openings)[1..]
      ensures !old(open) && ok ==> open && healthy
      ensures !ok ==> !open && !healthy
      ensures fresh(Footprint() - old(Footprint()))
    {
      if open {
        return true;
      }
      ok := true;
      if openings != [] {
        ok := openings[0];
        openings := openings[1..];
      }
      if ok {
        port := new Port(now);
        fr := new FrameReader(port, cfg.readTimeout);
        open, healthy := true, true;
      }
    }

    method Close()
      requires Valid()
      modifies this
      ensures Valid() && !open && !healthy && port == null && fr == null
      ensures sent == old(sent) && exchanges == old(exchanges)
      ensures openings == old(openings) && Footprint() <= old(Footprint())
    {
      open, healthy, port, fr := false, false, null, null;
    }

    /** `reopen`: closes whatever is there, then opens. */
    method Reopen() returns (ok: bool)
      requires Valid()
      modifies this
      ensures Valid() && sent == old(sent) && exchanges == old(exchanges)
      ensures ok == open == healthy
      ensures ok == (old(openings) == [] || old(openings)[0])
      ensures openings == if old(openings) == [] then [] else old(openings)[1..]
      ensures fresh(Footprint() - old(Footprint()))
    {
      Close();
      ok := Open();
    }

    predicate IsHealthy()
      reads this
    {
      open && healthy
    }

    method MarkUnhealthy()
      modifies this`healthy
      ensures !healthy
    {
      healthy := false;
    }

    /** The exchange the next transaction will face. */
    method NextExchange() returns (x: Exchange)
      modifies this`exchanges
      ensures x == First(old(exchanges))
      ensures exchanges == if old(exchanges) == [] then [] else old(exchanges)[1..]
    {
      if exchanges == [] {
        x := SILENCE;
      } else {
        x, exchanges := exchanges[0], exchanges[1..];
      }
    }

    method Drain(port: Port) returns (fault: Option<Fault>)
      modifies port`plan
      ensures fault == DrainOutcome(old(port.plan.drains), MAX_DRAIN_INTERRUPTS)
    {
      fault := Some(Interrupted);
      for tries := 0 to MAX_DRAIN_INTERRUPTS
        invariant fault == Some(Interrupted)
        invariant DrainOutcome(old(port.plan.drains), MAX_DRAIN_INTERRUPTS) == DrainOutcome(port.plan.drains, MAX_DRAIN_INTERRUPTS - tries)
      {
        fault := port.Drain();
        if fault != Some(Interrupted) {
          return;
        }
      }
    }

    method Fail(fault: Fault)
      modifies this`healthy
      ensures healthy == (old(healthy) && !fault.PortGone?)
    {
      if fault.PortGone? {
        MarkUnhealthy();
      }
    }

    /** The part of `transmit` that follows the quiet wait. */
    method FlushWriteDrain(port: Port, command: string) returns (fault: Option<Fault>)
      modifies this`healthy, this`sent, port`script, port`plan, port`written
      ensures port.script == if old(port.plan).flush.None? then old(port.plan).reply else old(port.script)
      ensures sent == if old(port.plan).flush.None? then old(sent) + [command + "\r\n"] else old(sent)
      ensures port.written == if old(port.plan).flush.None? then old(port.written) + [command + "\r\n"] else old(port.written)
      ensures fault == if old(port.plan).flush.Some? then old(port.plan).flush
        else if old(port.plan).write.Some? then old(port.plan).write
        else DrainOutcome(old(port.plan).drains, MAX_DRAIN_INTERRUPTS)
      ensures healthy == (old(healthy) && fault != Some(PortGone))
    {
      fault := port.ResetInputBuffer();
      if fault.Some? {
        Fail(fault.value);
        return;
      }
      fault := port.Write(command + "\r\n");
      sent := sent + [command + "\r\n"];
      if fault.Some? {
        Fail(fault.value);
        return;
      }
      fault := Drain(port);
      if fault.Some? {
        Fail(fault.value);
      }
    }

    /** `transmit`. A port-level error marks the port unhealthy; nothing else does. */
    method Transmit(ctx: Ctx, port: Port, fr: FrameReader, command: string) returns (error: Option<TxError>, left: Ctx)
      requires fr.port == port && fr.Valid() && port.script == port.plan.quiet
      modifies this`healthy, this`sent, port, fr, fr.scratch
      ensures fr.Valid()
      ensures Transmitted(error, port.now, fr.portTimeout, left, sent != old(sent), port.script) ==
              TransmitRun(old(port.plan), cfg, old(port.now), old(fr.portTimeout), ctx)
      ensures sent == old(sent) || sent == old(sent) + [command + "\r\n"]
      ensures healthy == (old(healthy) && error != Some(Faulted(PortGone)))
      ensures error == None ==> fr.buf == ""
    {
      var outcome;
      outcome, left := fr.AwaitQuiet(ctx, cfg.busQuietGap, cfg.busQuietMaxWait);
      match outcome
      case QuietCancelled =>
        error := Some(Cancelled);
      case QuietFailed(fault) =>
        Fail(fault);
        error := Some(Faulted(fault));
      case _ =>
        fr.Reset();
        var fault := FlushWriteDrain(port, command);
        error := if fault.Some? then Some(Faulted(fault.value)) else None;
    }

    /** The reading loop of `Transact`. */
    method AwaitAnswer(ctx: Ctx, fr: FrameReader, deadline: int, want: string) returns (result: TxResult, left: Ctx)
      requires fr.Valid()
      modifies this`healthy, fr.port`now, fr.port`timeout, fr.port`script, fr.port`lastData, fr, fr.scratch
      ensures fr.Valid()
      ensures Awaited(result, fr.Ahead(), left) == AwaitReply(old(fr.buf), old(fr.Ahead()), ctx, deadline, fr.readTimeout, want)
      ensures healthy == (old(healthy) && result != Error(Faulted(PortGone)))
    {
      left := ctx;
      while true
        invariant fr.Valid() && healthy == old(healthy)
        invariant AwaitReply(fr.buf, fr.Ahead(), left, deadline, fr.readTimeout, want)
          == AwaitReply(old(fr.buf), old(fr.Ahead()), ctx, deadline, fr.readTimeout, want)
        decreases |fr.buf| + |Data(fr.port.script)|
      {
        ghost var turn := StepReply(fr.buf, fr.Ahead(), left, deadline, fr.readTimeout, want);
        ReplyUnfolds(fr.buf, fr.Ahead(), left, deadline, fr.readTimeout, want, turn);
        var cancelled := left.Done();
        left := left.Checked();
        if cancelled {
          return Error(Cancelled), left;
        }
        var outcome, frame := fr.ReadFrame(deadline);
        match outcome
        case TimedOut => return Error(NoReply), left;
        case Overflow(_) => return Error(Overrun), left;
        case Failed(fault) =>
          Fail(fault);
          return Error(Faulted(fault)), left;
        case Frame(_) =>
          var answer := ParseResponse(frame, want);
          if answer.Some? {
            return Value(answer.value), left;
          }
      }
    }

    method ConverseOn(ctx: Ctx, port: Port, fr: FrameReader, command: string) returns (result: TxResult, left: Ctx)
      requires fr.port == port && fr.Valid() && port.script == port.plan.quiet && fr.readTimeout == cfg.readTimeout
      modifies this`healthy, this`sent, port, fr, fr.scratch
      ensures fr.Valid()
      ensures var run := Converse(old(port.plan), cfg, old(port.now), old(fr.portTimeout), ctx, command);
        && run.result == result && run.now == port.now && run.limit == fr.portTimeout && run.ctx == left
        && run.written == (sent != old(sent)) && run.left == port.script
      ensures sent == old(sent) || sent == old(sent) + [command + "\r\n"]
      ensures healthy == (old(healthy) && result != Error(Faulted(PortGone)))
    {
      ghost var x, start, limit := port.plan, port.now, fr.portTimeout;
      ghost var t := TransmitRun(x, cfg, start, limit, ctx);
      var failed;
      failed, left := Transmit(ctx, port, fr, command);
      if failed.Some? {
        ConverseFails(x, cfg, start, limit, ctx, command, t);
        return Error(failed.value), left;
      }
      assert fr.Ahead() == Feed(t.now, t.limit, t.left);
      result, left := AwaitAnswer(left, fr, port.now + cfg.responseTimeout, CommandPrefix(command));
      ConverseAwaits(x, cfg, start, limit, ctx, command, t, Awaited(result, fr.Ahead(), left));
    }

    /** `Transact`. The command is written at most once per call, and a value means that it
        was written. */
    method Transact(ctx: Ctx, command: string) returns (result: TxResult, left: Ctx)
      requires Valid()
      modifies this`healthy, this`now, this`sent, this`exchanges
      modifies if port != null then {port} else {}, if fr != null then {fr, fr.scratch} else {}
      ensures Valid() && open == old(open)
      ensures sent == old(sent) || sent == old(sent) + [command + "\r\n"]
      ensures !open ==> result.Error? && sent == old(sent) && now == old(now)
      ensures open ==> (var run := TransactRun(First(old(exchanges)), cfg, old(now), old(Limit()), ctx, command);
                        run.result == result && run.now == now && run.limit == Limit() && run.ctx == left && run.written == (sent != old(sent)))
      ensures open ==> healthy == (old(healthy) && result != Error(Faulted(PortGone)))
    {
      left := ctx.Checked();
      if ctx.Done() {
        return Error(Cancelled), left;
      }
      if !open || port == null || fr == null {
        return Error(NotOpen), left;
      }
      var x := NextExchange();
      port.Face(x);
      result, left := ConverseOn(left, port, fr, command);
      now := port.now;
    }

    /** `Send`: a transaction that awaits no reply. */
    method Send(ctx: Ctx, command: string) returns (error: Option<TxError>, left: Ctx)
      requires Valid()
      modifies this`healthy, this`now, this`sent, this`exchanges
      modifies if port != null then {port} else {}, if fr != null then {fr, fr.scratch} else {}
      ensures Valid() && open == old(open)
      ensures sent == old(sent) || sent == old(sent) + [command + "\r\n"]
      ensures error == None ==> open && sent == old(sent) + [command + "\r\n"]
      ensures ctx.Done() ==> error == Some(Cancelled) && sent == old(sent) && now == old(now)
      ensures !ctx.Done() && !open ==> error == Some(NotOpen) && sent == old(sent) && now == old(now)
      ensures !ctx.Done() && open ==> (var t := TransmitRun(First(old(exchanges)), cfg, old(now), old(Limit()), ctx.Checked());
                                       t.error == error && t.now == now && t.limit == Limit() && t.ctx == left && t.written == (sent != old(sent)))
      ensures open ==> healthy == (old(healthy) && error != Some(Faulted(PortGone)))
    {
      left := ctx.Checked();
      if ctx.Done() {
        return Some(Cancelled), left;
      }
      if !open || port == null || fr == null {
        return Some(NotOpen), left;
      }
      var x := NextExchange();
      port.Face(x);
      error, left := Transmit(left, port, fr, command);
      now := port.now;
    }
  }
}
