/** `internal/serial/framing.go`: a persistent buffer that turns arbitrarily chunked reads
    into lines, and the wait for a quiet bus.

    The port is adversarial: a script says what each read returns, and every finite
    behaviour of a port is some script. Only blocking reads and idle polls take time. */
module Framing {
  import opened Basics
  import opened Lines

  const MAX_FRAME: nat := 512
  const SCRATCH: nat := 256
  const IDLE_POLL: int := MS

  /** What one read can return: it fits the scratch array. */
  type Chunk = s: string | |s| <= SCRATCH

  /** An error as the layers above tell them apart: `Idle` is what IsTimeout recognises,
      `PortGone` what IsPortError recognises, `Interrupted` is EINTR. */
  datatype Fault = Idle | PortGone | Interrupted | Broken

  /** One read. `Got` returns the data and the error after blocking for `took`, or for the
      whole read timeout if that is shorter. `Refused` makes setting a read timeout fail. */
  datatype ReadEvent = Got(data: Chunk, took: nat, fault: Option<Fault>) | Refused(why: Fault) {
    function Data(): Chunk { if Got? then data else "" }
  }

  /** The clock, the read timeout the port is known to be set to (0: unknown), and what
      future reads will return. A port with nothing left in its script is idle. */
  datatype Feed = Feed(now: int, limit: int, script: seq<ReadEvent>)

  datatype Taken = Taken(data: Chunk, fault: Option<Fault>, feed: Feed)

  /** One `read` blocking for at most `wait`. */
  function Take(f: Feed, wait: int): Taken
    requires wait > 0
  {
    if f.script == [] then Taken("", None, Feed(f.now + wait, wait, []))
    else
      match f.script[0]
      case Got(data, took, fault) => Taken(data, fault, Feed(f.now + Min(took, wait), wait, f.script[1..]))
      case Refused(why) => Taken("", Some(why), Feed(f.now, if wait != f.limit then 0 else wait, f.script[1..]))
  }

  // ---- what is still to come -------------------------------------------------------

  function Data(events: seq<ReadEvent>): string {
    if events == [] then "" else events[0].Data() + Data(events[1..])
  }

  function DataReads(events: seq<ReadEvent>): nat {
    if events == [] then 0 else (if events[0].Data() != "" then 1 else 0) + DataReads(events[1..])
  }

  /** The bytes that reads returned between f and a later g. */
  function Heard(f: Feed, g: Feed): string
    requires |Data(g.script)| <= |Data(f.script)|
  {
    Data(f.script)[..|Data(f.script)| - |Data(g.script)|]
  }

  lemma TakeHeard(f: Feed, wait: int)
    requires wait > 0
    ensures var t := Take(f, wait); Data(f.script) == t.data + Data(t.feed.script)
    ensures var t := Take(f, wait); DataReads(f.script) == (if t.data != "" then 1 else 0) + DataReads(t.feed.script)
    ensures var t := Take(f, wait); f.now <= t.feed.now <= f.now + wait
  {
  }

  // ---- readFrame -------------------------------------------------------------------

  /** The outcome of one `readFrame`. The caller of `Frame(raw)` gets `TrimCR(raw)`. */
  datatype FrameOutcome = Frame(raw: string) | Overflow(dropped: string) | TimedOut | Failed(fault: Fault) {
    /** The bytes this call removed from the stream. */
    function Bytes(): string {
      match this
      case Frame(raw) => raw + "\n"
      case Overflow(dropped) => dropped
      case _ => ""
    }
  }

  datatype FrameRun = FrameRun(outcome: FrameOutcome, buf: string, feed: Feed)

  function TrimCR(s: string): string {
    if s != "" && s[|s| - 1] == '\r' then TrimCR(s[..|s| - 1]) else s
  }

  /** Exactly the carriage returns at the end are removed. */
  lemma {:induction false} TrimCRMeans(s: string)
    ensures TrimCR(s) <= s && (forall i :: |TrimCR(s)| <= i < |s| ==> s[i] == '\r')
    ensures TrimCR(s) != "" ==> s[|TrimCR(s)| - 1] != '\r'
  {
    if s != "" && s[|s| - 1] == '\r' {
      TrimCRMeans(s[..|s| - 1]);
    }
  }

  predicate Hard(fault: Option<Fault>) { fault.Some? && !fault.value.Idle? }

  datatype FrameStep = Stop(run: FrameRun) | More(buf: string, feed: Feed)

  /** One turn of the loop: serve a buffered line, give up an overlong one, or read on. */
  function StepFrame(buf: string, f: Feed, deadline: int, readTimeout: int): (s: FrameStep)
    ensures s.More? ==> |s.feed.script| < |f.script| || (s.feed.script == f.script == [] && f.now < s.feed.now)
    ensures s.More? ==> f.now < deadline
  {
    var i := NewlineAt(buf);
    var wait := Min(readTimeout, deadline - f.now);
    if i < |buf| then Stop(FrameRun(FrameOutcome.Frame(buf[..i]), buf[i + 1..], f))
    else if |buf| > MAX_FRAME then Stop(FrameRun(Overflow(buf), "", f))
    else if wait <= 0 then Stop(FrameRun(TimedOut, buf, f))
    else AfterReading(buf, Take(f, wait))
  }

  function AfterReading(buf: string, t: Taken): FrameStep {
    if t.data != "" then More(buf + t.data, t.feed)
    else if Hard(t.fault) then Stop(FrameRun(Failed(t.fault.value), buf, t.feed))
    else More(buf, t.feed.(now := t.feed.now + IDLE_POLL))
  }

  lemma StepTimes(buf: string, f: Feed, deadline: int, readTimeout: int)
    ensures var s := StepFrame(buf, f, deadline, readTimeout);
      && (s.More? ==> |buf| <= MAX_FRAME && '\n' !in buf && |s.buf| <= MAX_FRAME + SCRATCH)
      && (s.More? ==> f.now <= s.feed.now <= deadline + IDLE_POLL && f.now < deadline)
      && (s.More? ==> f.now < s.feed.now || |buf| < |s.buf|)
      && (s.Stop? ==> f.now <= s.run.feed.now <= Max(f.now, deadline))
  {
  }

  lemma StepReadsOn(buf: string, f: Feed, deadline: int, readTimeout: int)
    requires StepFrame(buf, f, deadline, readTimeout).More?
    ensures var s := StepFrame(buf, f, deadline, readTimeout);
      && buf + Data(f.script) == s.buf + Data(s.feed.script)
      && |Data(s.feed.script)| <= |Data(f.script)|
      && DataReads(f.script) - DataReads(s.feed.script) <= |s.buf| - |buf|
      && |buf| <= MAX_FRAME
  {
    var t := Take(f, Min(readTimeout, deadline - f.now));
    TakeHeard(f, Min(readTimeout, deadline - f.now));
    assert buf + (t.data + Data(t.feed.script)) == buf + t.data + Data(t.feed.script);
  }

  lemma StepStops(buf: string, f: Feed, deadline: int, readTimeout: int)
    requires StepFrame(buf, f, deadline, readTimeout).Stop?
    ensures var r := StepFrame(buf, f, deadline, readTimeout).run;
      && buf + Data(f.script) == r.outcome.Bytes() + r.buf + Data(r.feed.script)
      && DataReads(r.feed.script) == DataReads(f.script) && Data(r.feed.script) == Data(f.script)
  {
    var r := StepFrame(buf, f, deadline, readTimeout).run;
    match r.outcome
    case Frame(raw) => assert buf == raw + "\n" + r.buf;
    case Overflow(dropped) => assert buf == dropped + r.buf;
    case TimedOut => assert buf == "" + buf;
    case Failed(_) =>
      TakeHeard(f, Min(readTimeout, deadline - f.now));
      assert buf == "" + buf && Data(r.feed.script) == "" + Data(r.feed.script);
  }

  /** One call of `readFrame`. */
  function NextFrame(buf: string, f: Feed, deadline: int, readTimeout: int): (r: FrameRun)
    // It ends at most one idle poll past its deadline, and times out only once that has come.
    ensures f.now <= r.feed.now <= Max(f.now, deadline + IDLE_POLL)
    ensures r.outcome.TimedOut? && readTimeout > 0 ==> deadline <= r.feed.now
    // Frames hold no newline, a dropped segment is one newline-free run of 513 to 768 bytes,
    // and without a frame nothing complete is left behind.
    ensures |buf| <= MAX_FRAME + SCRATCH ==> |r.buf| <= MAX_FRAME + SCRATCH
    ensures r.outcome.Frame? ==> '\n' !in r.outcome.raw
    ensures r.outcome.Overflow? ==> '\n' !in r.outcome.dropped && MAX_FRAME < |r.outcome.dropped| && r.buf == ""
    ensures r.outcome.Overflow? && |buf| <= MAX_FRAME + SCRATCH ==> |r.outcome.dropped| <= MAX_FRAME + SCRATCH
    ensures r.outcome.TimedOut? || r.outcome.Failed? ==> '\n' !in r.buf && |r.buf| <= MAX_FRAME
    decreases |f.script|, Max(0, deadline - f.now)
  {
    StepTimes(buf, f, deadline, readTimeout);
    match StepFrame(buf, f, deadline, readTimeout)
    case Stop(run) => run
    case More(more, later) => NextFrame(more, later, deadline, readTimeout)
  }

  lemma FrameUnfolds(buf: string, f: Feed, deadline: int, readTimeout: int, s: FrameStep)
    requires s == StepFrame(buf, f, deadline, readTimeout)
    ensures s.Stop? ==> NextFrame(buf, f, deadline, readTimeout) == s.run
    ensures s.More? ==> NextFrame(buf, f, deadline, readTimeout) == NextFrame(s.buf, s.feed, deadline, readTimeout)
  {
  }

  /** Byte conservation for one call: what was buffered and what is to come is what was
      delivered or dropped, then what is buffered, then what is to come. */
  lemma {:induction false} NextFrameConserves(buf: string, f: Feed, deadline: int, readTimeout: int)
    ensures var r := NextFrame(buf, f, deadline, readTimeout);
      && buf + Data(f.script) == r.outcome.Bytes() + r.buf + Data(r.feed.script)
      && |Data(r.feed.script)| <= |Data(f.script)|
    decreases |f.script|, Max(0, deadline - f.now)
  {
    match StepFrame(buf, f, deadline, readTimeout)
    case Stop(_) => StepStops(buf, f, deadline, readTimeout);
    case More(more, later) =>
      StepReadsOn(buf, f, deadline, readTimeout);
      NextFrameConserves(more, later, deadline, readTimeout);
  }

  /** One call makes at most 513 reads that return data: each lengthens a newline-free buffer
      that is given up beyond 512 bytes. */
  lemma {:induction false} NextFrameReads(buf: string, f: Feed, deadline: int, readTimeout: int)
    ensures var r := NextFrame(buf, f, deadline, readTimeout);
      DataReads(f.script) - DataReads(r.feed.script) <= Max(0, MAX_FRAME + 1 - |buf|)
    decreases |f.script|, Max(0, deadline - f.now)
  {
    match StepFrame(buf, f, deadline, readTimeout)
    case Stop(_) => StepStops(buf, f, deadline, readTimeout);
    case More(more, later) =>
      StepReadsOn(buf, f, deadline, readTimeout);
      NextFrameReads(more, later, deadline, readTimeout);
  }

  /** A frame is delivered by the deadline, or at once if it was buffered already: the bytes of
      a frame that is delivered were received by then. */
  lemma {:induction false} FrameInTime(buf: string, f: Feed, deadline: int, readTimeout: int)
    requires NextFrame(buf, f, deadline, readTimeout).outcome.Frame?
    ensures NextFrame(buf, f, deadline, readTimeout).feed.now <= if '\n' in buf then f.now else deadline
    decreases |f.script|, Max(0, deadline - f.now)
  {
    StepTimes(buf, f, deadline, readTimeout);
    var s := StepFrame(buf, f, deadline, readTimeout);
    FrameUnfolds(buf, f, deadline, readTimeout, s);
    if s.More? {
      FrameInTime(s.buf, s.feed, deadline, readTimeout);
    }
  }

  // ---- exactly what one call delivers ----------------------------------------------

  /** What a reader hears that reads on until the deadline, whatever it hears: the bytes, and the
      error that ends it, if one does. */
  datatype Listened = Listened(data: string, fault: Option<Fault>) {
    function After(earlier: string): Listened { Listened(earlier + data, fault) }
  }

  function ListenUntil(f: Feed, deadline: int, readTimeout: int): Listened
    decreases |f.script|, Max(0, deadline - f.now)
  {
    var wait := Min(readTimeout, deadline - f.now);
    if wait <= 0 then Listened("", None)
    else
      var t := Take(f, wait);
      if t.data != "" then ListenUntil(t.feed, deadline, readTimeout).After(t.data)
      else if t.fault.None? || t.fault.value.Idle? then ListenUntil(t.feed.(now := t.feed.now + IDLE_POLL), deadline, readTimeout)
      else Listened("", t.fault)
  }

  /** With all that is heard by the deadline, the next line is no longer than a frame may be. */
  predicate NextLineFits(buf: string, heard: Listened) { NewlineAt(buf + heard.data) <= MAX_FRAME }

  /** What a call returns and leaves behind, given all that is heard by its deadline: the next
      line, if one comes, and otherwise the error that ended the reading or a timeout. */
  ghost predicate ServesNextLine(buf: string, heard: Listened, r: FrameRun, left: Listened) {
    var s := buf + heard.data;
    var i := NewlineAt(s);
    if i < |s| then r.outcome == FrameOutcome.Frame(s[..i]) && r.buf + left.data == s[i + 1..] && left.fault == heard.fault
    else r.outcome == if heard.fault.Some? then Failed(heard.fault.value) else TimedOut
  }

  lemma BufferedLineServed(buf: string, f: Feed, heard: Listened)
    requires '\n' in buf
    ensures var i := NewlineAt(buf); i < |buf| && ServesNextLine(buf, heard, FrameRun(FrameOutcome.Frame(buf[..i]), buf[i + 1..], f), heard)
  {
    var i, s := NewlineAt(buf), buf + heard.data;
    NewlineOfMore(buf, heard.data);
    hide NewlineAt;
    assert s[..i] == buf[..i] && s[i + 1..] == buf[i + 1..] + heard.data;
  }

  lemma ServedLater(buf: string, data: string, more: Listened, r: FrameRun, left: Listened)
    requires ServesNextLine(buf + data, more, r, left)
    ensures ServesNextLine(buf, more.After(data), r, left)
  {
    ConcatAssociates(buf, data, more.data);
  }

  lemma FitsLater(buf: string, data: string, more: Listened)
    requires NextLineFits(buf, more.After(data))
    ensures NextLineFits(buf + data, more)
  {
    ConcatAssociates(buf, data, more.data);
  }

  lemma NothingServed(buf: string, f: Feed, fault: Option<Fault>, left: Listened)
    requires '\n' !in buf
    ensures ServesNextLine(buf, Listened("", fault), FrameRun(if fault.Some? then Failed(fault.value) else TimedOut, buf, f), left)
  {
    assert buf + "" == buf;
  }

  /** Reading on, with and without frames. */
  lemma ReadsOnAlike(buf: string, f: Feed, deadline: int, readTimeout: int, t: Taken)
    requires '\n' !in buf && |buf| <= MAX_FRAME && Min(readTimeout, deadline - f.now) > 0 && t == Take(f, Min(readTimeout, deadline - f.now))
    ensures var s, heard, idled := StepFrame(buf, f, deadline, readTimeout), ListenUntil(f, deadline, readTimeout), t.feed.(now := t.feed.now + IDLE_POLL);
      if t.data != "" then s == More(buf + t.data, t.feed) && heard == ListenUntil(t.feed, deadline, readTimeout).After(t.data)
      else if Hard(t.fault) then s == Stop(FrameRun(Failed(t.fault.value), buf, t.feed)) && heard == Listened("", t.fault)
      else s == More(buf, idled) && heard == ListenUntil(idled, deadline, readTimeout)
  {
    NewlineOfMore(buf, "");
  }

  /** Exactly what a call of `readFrame` delivers. */
  lemma {:induction false} FrameIsExact(buf: string, f: Feed, deadline: int, readTimeout: int)
    requires NextLineFits(buf, ListenUntil(f, deadline, readTimeout))
    ensures var r := NextFrame(buf, f, deadline, readTimeout);
      ServesNextLine(buf, ListenUntil(f, deadline, readTimeout), r, ListenUntil(r.feed, deadline, readTimeout))
    decreases |f.script|, Max(0, deadline - f.now)
  {
    var heard, s := ListenUntil(f, deadline, readTimeout), StepFrame(buf, f, deadline, readTimeout);
    FrameUnfolds(buf, f, deadline, readTimeout, s);
    if '\n' in buf {
      BufferedLineServed(buf, f, heard);
      return;
    }
    NewlineOfMore(buf, heard.data);
    var wait := Min(readTimeout, deadline - f.now);
    if wait <= 0 {
      NothingServed(buf, f, None, ListenUntil(f, deadline, readTimeout));
      return;
    }
    var t := Take(f, wait);
    ReadsOnAlike(buf, f, deadline, readTimeout, t);
    hide NewlineAt, NextLineFits, ServesNextLine, Take, StepFrame, ListenUntil, NextFrame;
    if t.data != "" {
      FitsLater(buf, t.data, ListenUntil(t.feed, deadline, readTimeout));
      FrameIsExact(s.buf, s.feed, deadline, readTimeout);
      ServedLater(buf, t.data, ListenUntil(t.feed, deadline, readTimeout), NextFrame(buf, f, deadline, readTimeout),
                  ListenUntil(NextFrame(buf, f, deadline, readTimeout).feed, deadline, readTimeout));
    } else if Hard(t.fault) {
      NothingServed(buf, t.feed, t.fault, ListenUntil(t.feed, deadline, readTimeout));
    } else {
      FrameIsExact(s.buf, s.feed, deadline, readTimeout);
    }
  }

  // ---- any number of calls ---------------------------------------------------------

  /** One call of `readFrame`: some time after the previous one, with some time to spend. */
  datatype Call = Call(pause: nat, budget: int)

  datatype CallsRun = CallsRun(outcomes: seq<FrameOutcome>, buf: string, feed: Feed)

  function Started(f: Feed, c: Call): Feed { f.(now := f.now + c.pause) }

  function FirstCall(buf: string, f: Feed, c: Call, readTimeout: int): FrameRun {
    NextFrame(buf, Started(f, c), f.now + c.pause + c.budget, readTimeout)
  }

  function Calls(buf: string, f: Feed, calls: seq<Call>, readTimeout: int): CallsRun
    decreases calls
  {
    if calls == [] then CallsRun([], buf, f)
    else
      var r := FirstCall(buf, f, calls[0], readTimeout);
      var more := Calls(r.buf, r.feed, calls[1..], readTimeout);
      CallsRun([r.outcome] + more.outcomes, more.buf, more.feed)
  }

  /** Everything a run of calls removed from the stream, in order. */
  function AllBytes(outcomes: seq<FrameOutcome>): string {
    if outcomes == [] then "" else outcomes[0].Bytes() + AllBytes(outcomes[1..])
  }

  /** The lines a run of calls delivered, in order. */
  function Raws(outcomes: seq<FrameOutcome>): seq<string> {
    if outcomes == [] then []
    else (if outcomes[0].Frame? then [outcomes[0].raw] else []) + Raws(outcomes[1..])
  }

  lemma FirstCallConserves(buf: string, f: Feed, c: Call, readTimeout: int)
    ensures var r := FirstCall(buf, f, c, readTimeout);
      && buf + Data(f.script) == r.outcome.Bytes() + (r.buf + Data(r.feed.script))
      && |Data(r.feed.script)| <= |Data(f.script)|
  {
    hide NextFrame, Data;
    var r := FirstCall(buf, f, c, readTimeout);
    NextFrameConserves(buf, Started(f, c), f.now + c.pause + c.budget, readTimeout);
    ConcatAssociates(r.outcome.Bytes(), r.buf, Data(r.feed.script));
  }

  lemma AllBytesCons(o: FrameOutcome, more: seq<FrameOutcome>)
    ensures AllBytes([o] + more) == o.Bytes() + AllBytes(more)
  {
    assert ([o] + more)[1..] == more;
  }

  /** Byte conservation, overflow included: over any calls on any stream, what was buffered
      and is to come is what was delivered and dropped, in order, then the buffer, then what
      is still to come. */
  lemma {:induction false} StreamConserved(buf: string, f: Feed, calls: seq<Call>, readTimeout: int)
    ensures var r := Calls(buf, f, calls, readTimeout);
      && buf + Data(f.script) == AllBytes(r.outcomes) + (r.buf + Data(r.feed.script))
      && |Data(r.feed.script)| <= |Data(f.script)|
    decreases calls
  {
    if calls == [] {
      assert "" + (buf + Data(f.script)) == buf + Data(f.script);
    } else {
      var r := FirstCall(buf, f, calls[0], readTimeout);
      var more := Calls(r.buf, r.feed, calls[1..], readTimeout);
      FirstCallConserves(buf, f, calls[0], readTimeout);
      AllBytesCons(r.outcome, more.outcomes);
      StreamConserved(r.buf, r.feed, calls[1..], readTimeout);
      ConcatAssociates(r.outcome.Bytes(), AllBytes(more.outcomes), more.buf + Data(more.feed.script));
    }
  }

  lemma {:induction false} OutcomeShapes(buf: string, f: Feed, calls: seq<Call>, readTimeout: int)
    requires |buf| <= MAX_FRAME + SCRATCH
    ensures var r := Calls(buf, f, calls, readTimeout);
      && |r.buf| <= MAX_FRAME + SCRATCH && |r.outcomes| == |calls|
      && (forall o :: o in r.outcomes && o.Frame? ==> '\n' !in o.raw)
      && (forall o :: o in r.outcomes && o.Overflow? ==> '\n' !in o.dropped && MAX_FRAME < |o.dropped| <= MAX_FRAME + SCRATCH)
      && (calls != [] && r.outcomes[|calls| - 1].TimedOut? ==> '\n' !in r.buf)
    decreases calls
  {
    if calls != [] {
      var r := FirstCall(buf, f, calls[0], readTimeout);
      OutcomeShapes(r.buf, r.feed, calls[1..], readTimeout);
    }
  }

  /** The same in terms of what was heard: received bytes are delivered lines and dropped
      segments, in order, followed by the buffer. A dropped segment is one newline-free run
      of 513 to 768 bytes, and the buffer never exceeds 768. */
  lemma Conservation(f: Feed, calls: seq<Call>, readTimeout: int)
    ensures var r := Calls("", f, calls, readTimeout);
      && |Data(r.feed.script)| <= |Data(f.script)|
      && Heard(f, r.feed) == AllBytes(r.outcomes) + r.buf
      && |r.buf| <= MAX_FRAME + SCRATCH
      && forall o :: o in r.outcomes && o.Overflow? ==> '\n' !in o.dropped && MAX_FRAME < |o.dropped| <= MAX_FRAME + SCRATCH
  {
    var r := Calls("", f, calls, readTimeout);
    StreamConserved("", f, calls, readTimeout);
    OutcomeShapes("", f, calls, readTimeout);
    HeardIs(f, r.feed, AllBytes(r.outcomes), r.buf);
  }

  lemma HeardIs(f: Feed, g: Feed, bytes: string, buf: string)
    requires "" + Data(f.script) == bytes + (buf + Data(g.script)) && |Data(g.script)| <= |Data(f.script)|
    ensures Heard(f, g) == bytes + buf
  {
    var n := |Data(f.script)| - |Data(g.script)|;
    assert Data(f.script) == "" + Data(f.script);
    assert Data(f.script) == bytes + buf + Data(g.script);
    assert (bytes + buf + Data(g.script))[..n] == bytes + buf;
  }

  lemma ScanOutcome(o: FrameOutcome, later: string)
    requires !o.Overflow? && (o.Frame? ==> '\n' !in o.raw)
    ensures Scan(o.Bytes() + later) == Scan(later).After(if o.Frame? then [o.raw] else [])
  {
    if o.Frame? {
      ScanLine(o.raw, later);
    } else {
      assert o.Bytes() == "" && "" + later == later;
      assert Scan(later).After([]) == Scan(later) by { assert [] + Scan(later).lines == Scan(later).lines; }
    }
  }

  /** Without an overflow, scanning what was removed from a stream yields what was delivered. */
  lemma {:induction false} ScanDelivered(outcomes: seq<FrameOutcome>, tail: string)
    requires forall o :: o in outcomes ==> !o.Overflow? && (o.Frame? ==> '\n' !in o.raw)
    ensures Scan(AllBytes(outcomes) + tail) == Scan(tail).After(Raws(outcomes))
  {
    if outcomes == [] {
      assert AllBytes(outcomes) + tail == tail;
    } else {
      var o, rest := outcomes[0], AllBytes(outcomes[1..]);
      ScanDelivered(outcomes[1..], tail);
      ConcatAssociates(o.Bytes(), rest, tail);
      ScanOutcome(o, rest + tail);
    }
  }

  lemma {:induction false} NoOverflow(buf: string, f: Feed, calls: seq<Call>, readTimeout: int)
    requires NoLongRun(buf + Data(f.script), MAX_FRAME)
    ensures forall o :: o in Calls(buf, f, calls, readTimeout).outcomes ==> !o.Overflow?
    decreases calls
  {
    if calls != [] {
      var r := FirstCall(buf, f, calls[0], readTimeout);
      FirstCallConserves(buf, f, calls[0], readTimeout);
      NoLongRunParts(r.outcome.Bytes(), r.buf + Data(r.feed.script));
      NoOverflow(r.buf, r.feed, calls[1..], readTimeout);
    }
  }

  lemma NoLongRunParts(head: string, tail: string)
    requires NoLongRun(head + tail, MAX_FRAME)
    ensures NoLongRun(tail, MAX_FRAME) && ('\n' !in head ==> |head| <= MAX_FRAME)
  {
    var s := head + tail;
    assert s[0..|head|] == head;
    forall i, j | 0 <= i <= j <= |tail| && '\n' !in tail[i..j] ensures j - i <= MAX_FRAME {
      assert s[|head| + i..|head| + j] == tail[i..j];
    }
  }

  /** Chunking independence: however the stream is cut into reads, timed and interleaved with
      timeouts, the frames delivered are its lines in order, and after a timeout exactly the
      unterminated rest of what was heard is still buffered. */
  lemma ChunkingIndependence(f: Feed, calls: seq<Call>, readTimeout: int)
    requires NoLongRun(Data(f.script), MAX_FRAME)
    ensures var r := Calls("", f, calls, readTimeout);
      && |Data(r.feed.script)| <= |Data(f.script)|
      && Scan(Data(f.script)) == Scan(r.buf + Data(r.feed.script)).After(Raws(r.outcomes))
      && (r.outcomes != [] && r.outcomes[|r.outcomes| - 1].TimedOut? ==> Scan(Heard(f, r.feed)) == Scanned(Raws(r.outcomes), r.buf))
  {
    var r := Calls("", f, calls, readTimeout);
    assert "" + Data(f.script) == Data(f.script);
    NoOverflow("", f, calls, readTimeout);
    OutcomeShapes("", f, calls, readTimeout);
    StreamConserved("", f, calls, readTimeout);
    ScanDelivered(r.outcomes, r.buf + Data(r.feed.script));
    if r.outcomes != [] && r.outcomes[|r.outcomes| - 1].TimedOut? {
      HeardIs(f, r.feed, AllBytes(r.outcomes), r.buf);
      ScanDelivered(r.outcomes, r.buf);
      ScanPlain(r.buf);
    }
  }

  // ---- waitQuiet -------------------------------------------------------------------

  datatype QuietOutcome = Quiet | Busy | QuietCancelled | QuietFailed(fault: Fault)

  datatype QuietRun = QuietRun(outcome: QuietOutcome, feed: Feed, ctx: Ctx)

  datatype QuietStep = Settled(run: QuietRun) | Listen(feed: Feed, ctx: Ctx, lastByte: int)

  /** One turn of the loop of `waitQuiet`. */
  function StepQuiet(f: Feed, ctx: Ctx, gap: int, deadline: int, lastByte: int): (s: QuietStep)
    ensures s.Listen? ==> |s.feed.script| < |f.script| || (s.feed.script == f.script == [] && f.now < s.feed.now)
    ensures s.Listen? ==> f.now < deadline && f.now <= s.feed.now <= deadline + IDLE_POLL
    ensures s.Settled? ==> f.now <= s.run.feed.now <= Max(f.now, deadline)
  {
    var checked := ctx.Checked();
    var silence := f.now - lastByte;
    var remaining := deadline - f.now;
    if ctx.Done() then Settled(QuietRun(QuietCancelled, f, checked))
    else if silence >= gap then Settled(QuietRun(Quiet, f, checked))
    else if remaining <= 0 then Settled(QuietRun(Busy, f, checked))
    else AfterListening(Take(f, Min(gap - silence, remaining)), checked, gap, lastByte)
  }

  /** The wait settles for quiet as soon as the silence has lasted a gap, and for busy only while
      it has not; it goes on with less than a gap and an idle poll of silence. */
  lemma QuietTimes(f: Feed, ctx: Ctx, gap: int, deadline: int, lastByte: int)
    ensures match StepQuiet(f, ctx, gap, deadline, lastByte)
      case Listen(later, _, last) => later.now - last < Max(1, gap + IDLE_POLL)
      case Settled(run) =>
        && (run.outcome.Quiet? ==> run.feed == f && f.now - lastByte >= gap)
        && (run.outcome.Busy? ==> run.feed == f && f.now - lastByte < gap)
        && (run.outcome.QuietCancelled? ==> run.ctx.Done())
  {
  }

  function AfterListening(t: Taken, checked: Ctx, gap: int, lastByte: int): QuietStep {
    if Hard(t.fault) then Settled(QuietRun(QuietFailed(t.fault.value), t.feed, checked))
    else if t.data != "" then Listen(t.feed, checked, t.feed.now)
    else if t.feed.now - lastByte < gap then Listen(t.feed.(now := t.feed.now + IDLE_POLL), checked, lastByte)
    else Listen(t.feed, checked, lastByte)
  }

  /** The loop of `waitQuiet`. It ends at most one idle poll past its limit, and gives up on
      a busy bus only once the limit has come. */
  function WaitQuietFrom(f: Feed, ctx: Ctx, gap: int, deadline: int, lastByte: int): (r: QuietRun)
    ensures f.now <= r.feed.now <= Max(f.now, deadline + IDLE_POLL)
    ensures r.outcome.Busy? ==> deadline <= r.feed.now
    decreases |f.script|, Max(0, deadline - f.now)
  {
    match StepQuiet(f, ctx, gap, deadline, lastByte)
    case Settled(run) => run
    case Listen(later, checked, last) => WaitQuietFrom(later, checked, gap, deadline, last)
  }

  lemma QuietUnfolds(f: Feed, ctx: Ctx, gap: int, deadline: int, lastByte: int, s: QuietStep)
    requires s == StepQuiet(f, ctx, gap, deadline, lastByte)
    ensures s.Settled? ==> WaitQuietFrom(f, ctx, gap, deadline, lastByte) == s.run
    ensures s.Listen? ==> WaitQuietFrom(f, ctx, gap, deadline, lastByte) == WaitQuietFrom(s.feed, s.ctx, gap, deadline, s.lastByte)
  {
  }

  /** None of these reads fails. */
  predicate Faultless(events: seq<ReadEvent>) {
    events == [] ||
    ((if events[0].Got? then events[0].fault.None? || events[0].fault.value.Idle? else events[0].why.Idle?) && Faultless(events[1..]))
  }

  /** On a port that does not fail the wait ends quiet or busy, unless its context was found done. */
  lemma {:induction false} WaitQuietSucceeds(f: Feed, ctx: Ctx, gap: int, deadline: int, lastByte: int)
    requires Faultless(f.script)
    ensures var r := WaitQuietFrom(f, ctx, gap, deadline, lastByte);
      && (r.outcome.Quiet? || r.outcome.Busy? || (r.outcome.QuietCancelled? && r.ctx.Done()))
      && (ctx.Never? ==> r.ctx.Never?)
    decreases |f.script|, Max(0, deadline - f.now)
  {
    var s := StepQuiet(f, ctx, gap, deadline, lastByte);
    QuietUnfolds(f, ctx, gap, deadline, lastByte, s);
    if s.Listen? {
      WaitQuietSucceeds(s.feed, s.ctx, gap, deadline, s.lastByte);
    }
  }

  /** The wait is cancelled only when its context was found done, and then at once. */
  lemma {:induction false} QuietCancelledIsDone(f: Feed, ctx: Ctx, gap: int, deadline: int, lastByte: int)
    ensures var r := WaitQuietFrom(f, ctx, gap, deadline, lastByte);
      (r.outcome.QuietCancelled? ==> r.ctx.Done()) && (ctx.Done() ==> r == QuietRun(QuietCancelled, f, ctx))
    decreases |f.script|, Max(0, deadline - f.now)
  {
    var s := StepQuiet(f, ctx, gap, deadline, lastByte);
    QuietUnfolds(f, ctx, gap, deadline, lastByte, s);
    if s.Listen? {
      QuietCancelledIsDone(s.feed, s.ctx, gap, deadline, s.lastByte);
    }
  }

  /** A bus on which nobody talks is found quiet after exactly one gap. */
  lemma SilentBusIsQuiet(now: int, limit: int, gap: int, maxWait: int)
    requires 0 < gap <= maxWait
    ensures WaitQuiet(Feed(now, limit, []), Never, gap, maxWait) == QuietRun(Quiet, Feed(now + gap, gap, []), Never)
  {
    var f, g, deadline := Feed(now, limit, []), Feed(now + gap, gap, []), now + maxWait;
    assert StepQuiet(f, Never, gap, deadline, now) == Listen(g, Never, now);
    QuietUnfolds(f, Never, gap, deadline, now, Listen(g, Never, now));
    QuietUnfolds(g, Never, gap, deadline, now, Settled(QuietRun(Quiet, g, Never)));
  }

  function WaitQuiet(f: Feed, ctx: Ctx, gap: int, maxWait: int): QuietRun {
    WaitQuietFrom(f, ctx, gap, f.now + maxWait, f.now)
  }

  // ---- both bounds are reached -----------------------------------------------------

  /** A bus that keeps talking just often enough: the last read before the limit comes back
      empty, too soon after a byte to count as a quiet gap. */
  function BusyBus(gap: int, remaining: int): seq<ReadEvent>
    requires gap >= 2 && remaining >= 2
    decreases remaining
  {
    if remaining > gap then
      [Got("x", Min(gap, remaining - 2), None)] + BusyBus(gap, remaining - Min(gap, remaining - 2))
    else [Got("x", 1, None), Got("", remaining, None)]
  }

  /** The last two reads of a busy bus: one byte at once, then nothing up to the limit. */
  lemma LastByteOverruns(now: int, limit: int, gap: int, remaining: int)
    requires gap >= 2 && 2 <= remaining <= gap
    ensures var r := WaitQuietFrom(Feed(now, limit, BusyBus(gap, remaining)), Never, gap, now + remaining, now);
      (r.outcome.Quiet? || r.outcome.Busy?) && r.feed.now == now + remaining + IDLE_POLL && r.ctx == Never
  {
    var deadline := now + remaining;
    var f := Feed(now, limit, BusyBus(gap, remaining));
    var g := Feed(now + 1, remaining, [Got("", remaining, None)]);
    var h := Feed(deadline + IDLE_POLL, remaining - 1, []);
    assert StepQuiet(f, Never, gap, deadline, now) == Listen(g, Never, now + 1);
    assert StepQuiet(g, Never, gap, deadline, now + 1) == Listen(h, Never, now + 1);
    QuietUnfolds(f, Never, gap, deadline, now, Listen(g, Never, now + 1));
    QuietUnfolds(g, Never, gap, deadline, now + 1, Listen(h, Never, now + 1));
  }

  /** A byte that arrives within the gap starts the wait over. */
  lemma ByteRestartsTheGap(now: int, limit: int, took: nat, rest: seq<ReadEvent>, gap: int, deadline: int)
    requires 0 < gap <= deadline - now && took <= gap
    ensures WaitQuietFrom(Feed(now, limit, [Got("x", took, None)] + rest), Never, gap, deadline, now)
      == WaitQuietFrom(Feed(now + took, gap, rest), Never, gap, deadline, now + took)
  {
    var f, g := Feed(now, limit, [Got("x", took, None)] + rest), Feed(now + took, gap, rest);
    assert Take(f, gap) == Taken("x", None, g);
    QuietUnfolds(f, Never, gap, deadline, now, Listen(g, Never, now + took));
  }

  /** One idle poll past the limit. */
  predicate Overran(r: QuietRun, limit: int) {
    (r.outcome.Quiet? || r.outcome.Busy?) && r.feed.now == limit + IDLE_POLL && r.ctx == Never
  }

  lemma BusyBusGoesOn(now: int, limit: int, gap: int, deadline: int, took: nat, later: seq<ReadEvent>)
    requires gap >= 2 && deadline - now > gap && took == Min(gap, deadline - now - 2) && later == BusyBus(gap, deadline - (now + took))
    ensures WaitQuietFrom(Feed(now, limit, BusyBus(gap, deadline - now)), Never, gap, deadline, now)
      == WaitQuietFrom(Feed(now + took, gap, later), Never, gap, deadline, now + took)
  {
    assert BusyBus(gap, deadline - now) == [Got("x", took, None)] + later;
    ByteRestartsTheGap(now, limit, took, later, gap, deadline);
  }

  /** A busy bus overruns every limit by one idle poll. */
  lemma {:induction false} BusyBusOverruns(now: int, limit: int, gap: int, deadline: int)
    requires gap >= 2 && deadline - now >= 2
    ensures Overran(WaitQuietFrom(Feed(now, limit, BusyBus(gap, deadline - now)), Never, gap, deadline, now), deadline)
    decreases deadline - now
  {
    if deadline - now <= gap {
      LastByteOverruns(now, limit, gap, deadline - now);
    } else {
      var took := Min(gap, deadline - now - 2);
      BusyBusGoesOn(now, limit, gap, deadline, took, BusyBus(gap, deadline - (now + took)));
      BusyBusOverruns(now + took, gap, gap, deadline);
    }
  }

  /** A silent unit whose last empty read ends exactly at the deadline. */
  function SilentUnit(readTimeout: int, remaining: int): seq<ReadEvent>
    requires readTimeout >= IDLE_POLL && remaining > 0
    decreases remaining
  {
    if remaining <= readTimeout then [Got("", remaining, None)]
    else
      var took := Min(readTimeout, remaining - IDLE_POLL - 1);
      [Got("", took, None)] + SilentUnit(readTimeout, remaining - took - IDLE_POLL)
  }

  /** An empty read that ends before the deadline, and the idle poll after it. */
  lemma SilentTurn(now: int, limit: int, deadline: int, readTimeout: int, took: nat, rest: seq<ReadEvent>)
    requires readTimeout > 0 && now < deadline && took <= Min(readTimeout, deadline - now)
    ensures NextFrame("", Feed(now, limit, [Got("", took, None)] + rest), deadline, readTimeout)
      == NextFrame("", Feed(now + took + IDLE_POLL, Min(readTimeout, deadline - now), rest), deadline, readTimeout)
  {
    var wait := Min(readTimeout, deadline - now);
    var f, g := Feed(now, limit, [Got("", took, None)] + rest), Feed(now + took + IDLE_POLL, wait, rest);
    assert Take(f, wait) == Taken("", None, Feed(now + took, wait, rest));
    assert StepFrame("", f, deadline, readTimeout) == More("", g);
    FrameUnfolds("", f, deadline, readTimeout, More("", g));
  }

  lemma PastDeadline(f: Feed, deadline: int, readTimeout: int)
    requires deadline <= f.now
    ensures NextFrame("", f, deadline, readTimeout) == FrameRun(TimedOut, "", f)
  {
    FrameUnfolds("", f, deadline, readTimeout, StepFrame("", f, deadline, readTimeout));
  }

  lemma SilentUnitGoesOn(now: int, limit: int, readTimeout: int, deadline: int, took: nat, later: int)
    requires readTimeout >= IDLE_POLL && deadline - now > readTimeout
    requires took == Min(readTimeout, deadline - now - IDLE_POLL - 1) && later == now + took + IDLE_POLL
    ensures NextFrame("", Feed(now, limit, SilentUnit(readTimeout, deadline - now)), deadline, readTimeout)
      == NextFrame("", Feed(later, readTimeout, SilentUnit(readTimeout, deadline - later)), deadline, readTimeout)
  {
    assert SilentUnit(readTimeout, deadline - now) == [Got("", took, None)] + SilentUnit(readTimeout, deadline - later);
    SilentTurn(now, limit, deadline, readTimeout, took, SilentUnit(readTimeout, deadline - later));
  }

  lemma LastSilenceOverruns(now: int, limit: int, readTimeout: int, deadline: int)
    requires readTimeout >= IDLE_POLL && 0 < deadline - now <= readTimeout
    ensures TimedOutLate(NextFrame("", Feed(now, limit, SilentUnit(readTimeout, deadline - now)), deadline, readTimeout), deadline)
  {
    assert SilentUnit(readTimeout, deadline - now) == [Got("", deadline - now, None)] + [];
    SilentTurn(now, limit, deadline, readTimeout, deadline - now, []);
    PastDeadline(Feed(deadline + IDLE_POLL, deadline - now, []), deadline, readTimeout);
  }

  /** Timed out one idle poll past the deadline. */
  predicate TimedOutLate(r: FrameRun, deadline: int) { r.outcome.TimedOut? && r.feed.now == deadline + IDLE_POLL }

  /** A silent unit overruns every deadline by one idle poll. */
  lemma {:induction false} SilentUnitOverruns(now: int, limit: int, readTimeout: int, deadline: int)
    requires readTimeout >= IDLE_POLL && now < deadline
    ensures TimedOutLate(NextFrame("", Feed(now, limit, SilentUnit(readTimeout, deadline - now)), deadline, readTimeout), deadline)
    decreases deadline - now
  {
    if deadline - now <= readTimeout {
      LastSilenceOverruns(now, limit, readTimeout, deadline);
    } else {
      var took := Min(readTimeout, deadline - now - IDLE_POLL - 1);
      SilentUnitGoesOn(now, limit, readTimeout, deadline, took, now + took + IDLE_POLL);
      SilentUnitOverruns(now + took + IDLE_POLL, readTimeout, readTimeout, deadline);
    }
  }

  // ---- the program -----------------------------------------------------------------

  /** What a port does during one transaction: what the reads before the flush return, how
      the flush, the write and the drains end, and what the reads after the flush return.
      Bytes that arrive before the flush are in `quiet` or nowhere: the flush discards them. */
  datatype Exchange = Exchange(quiet: seq<ReadEvent>, flush: Option<Fault>, write: Option<Fault>,
                               drains: seq<Option<Fault>>, reply: seq<ReadEvent>)

  const SILENCE := Exchange([], None, None, [], [])

  /** A port as the layers above use it. */
  class Port {
    var now: int
    var timeout: int
    var script: seq<ReadEvent>
    var plan: Exchange
    var written: seq<string>
    /** When the last read that returned data ended. */
    ghost var lastData: int

    constructor (now: int)
      ensures this.now == now && lastData <= now && written == []
    {
      this.now, script, timeout, plan, written, lastData := now, [], 0, SILENCE, [], now;
    }

    /** The adversary settles how the port will behave in the next transaction. */
    method Face(x: Exchange)
      modifies this`script, this`plan
      ensures script == x.quiet && plan == x
    {
      script, plan := x.quiet, x;
    }

    method ResetInputBuffer() returns (fault: Option<Fault>)
      modifies this`script
      ensures fault == plan.flush && script == if fault == None then plan.reply else old(script)
    {
      fault := plan.flush;
      if fault == None {
        script := plan.reply;
      }
    }

    method Write(data: string) returns (fault: Option<Fault>)
      modifies this`written
      ensures fault == plan.write && written == old(written) + [data]
    {
      written, fault := written + [data], plan.write;
    }

    method Drain() returns (fault: Option<Fault>)
      modifies this`plan
      ensures plan == old(plan).(drains := if old(plan.drains) == [] then [] else old(plan.drains)[1..])
      ensures fault == if old(plan.drains) == [] then None else old(plan.drains)[0]
    {
      if plan.drains == [] {
        fault := None;
      } else {
        fault := plan.drains[0];
        plan := plan.(drains := plan.drains[1..]);
      }
    }

    method SetReadTimeout(t: int) returns (fault: Option<Fault>)
      modifies this`timeout, this`script
      ensures old(script) != [] && old(script)[0].Refused? ==>
        fault == Some(old(script)[0].why) && script == old(script)[1..] && timeout == old(timeout)
      ensures !(old(script) != [] && old(script)[0].Refused?) ==> fault == None && script == old(script) && timeout == t
    {
      if script != [] && script[0].Refused? {
        fault := Some(script[0].why);
        script := script[1..];
      } else {
        timeout, fault := t, None;
      }
    }

    method Read(p: array<char>) returns (n: nat, fault: Option<Fault>)
      requires p.Length == SCRATCH && timeout > 0
      modifies this`now, this`script, this`lastData, p
      ensures n <= p.Length
      ensures Taken(p[..n], fault, Feed(now, timeout, script)) == Take(old(Feed(now, timeout, script)), timeout)
      ensures lastData == if n > 0 then now else old(lastData)
    {
      if script == [] {
        n, fault, now := 0, None, now + timeout;
        return;
      }
      var e := script[0];
      script := script[1..];
      match e
      case Got(data, took, f) =>
        forall i | 0 <= i < |data| { p[i] := data[i]; }
        n, fault, now := |data|, f, now + Min(took, timeout);
        if n > 0 { lastData := now; }
      case Refused(why) =>
        n, fault := 0, Some(why);
    }

    method Sleep(d: nat)
      modifies this`now
      ensures now == old(now) + d
    {
      now := now + d;
    }
  }

  class FrameReader {
    const port: Port
    const scratch: array<char>
    const readTimeout: int
    var buf: string
    /** The read timeout the port is set to; zero means unknown. */
    var portTimeout: int

    /** The buffer is bounded, and the cached timeout is the port's own. */
    ghost predicate Valid()
      reads this, port
    {
      scratch.Length == SCRATCH && |buf| <= MAX_FRAME + SCRATCH && 0 <= portTimeout
      && (portTimeout != 0 ==> port.timeout == portTimeout) && port.lastData <= port.now
    }

    ghost function Ahead(): Feed
      reads this, port
    {
      Feed(port.now, portTimeout, port.script)
    }

    constructor (port: Port, readTimeout: int)
      requires port.lastData <= port.now
      ensures Valid() && fresh(scratch) && buf == "" && portTimeout == 0
      ensures this.port == port && this.readTimeout == readTimeout
    {
      this.port, this.readTimeout, buf, portTimeout := port, readTimeout, "", 0;
      scratch := new char[SCRATCH];
    }

    method Read(wait: int) returns (n: nat, fault: Option<Fault>)
      requires Valid() && wait > 0
      modifies this`portTimeout, port`now, port`timeout, port`script, port`lastData, scratch
      ensures Valid() && buf == old(buf) && n <= scratch.Length
      ensures var t := Take(old(Ahead()), wait); scratch[..n] == t.data && fault == t.fault && Ahead() == t.feed
      ensures port.lastData == if n > 0 then port.now else old(port.lastData)
    {
      if wait != portTimeout {
        var refused := port.SetReadTimeout(wait);
        if refused.Some? {
          portTimeout := 0;
          return 0, refused;
        }
        portTimeout := wait;
      }
      n, fault := port.Read(scratch);
    }

    /** The body of the loop of `readFrame`: `None` means it goes round again. */
    method FrameTurn(deadline: int) returns (outcome: Option<FrameOutcome>, frame: string)
      requires Valid()
      modifies this`buf, this`portTimeout, port`now, port`timeout, port`script, port`lastData, scratch
      ensures Valid()
      ensures (match outcome
               case Some(o) => Stop(FrameRun(o, buf, Ahead()))
               case None => More(buf, Ahead())) == StepFrame(old(buf), old(Ahead()), deadline, readTimeout)
      ensures outcome.Some? && outcome.value.Frame? ==> frame == TrimCR(outcome.value.raw)
    {
      frame := "";
      var i := NewlineAt(buf);
      if i < |buf| {
        outcome, frame := Some(FrameOutcome.Frame(buf[..i])), TrimCR(buf[..i]);
        buf := buf[i + 1..];
        return;
      }
      if |buf| > MAX_FRAME {
        outcome := Some(Overflow(buf));
        Reset();
        return;
      }
      var wait := Min(readTimeout, deadline - port.now);
      if wait <= 0 {
        outcome := Some(TimedOut);
        return;
      }
      var n, fault := Read(wait);
      if n > 0 {
        buf, outcome := buf + scratch[..n], None;
      } else if Hard(fault) {
        outcome := Some(Failed(fault.value));
      } else {
        port.Sleep(IDLE_POLL);
        outcome := None;
      }
    }

    /** `readFrame` terminates because idle polls use up the time left and data uses up the
        room left in the buffer. */
    method ReadFrame(deadline: int) returns (outcome: FrameOutcome, frame: string)
      requires Valid()
      modifies this`buf, this`portTimeout, port`now, port`timeout, port`script, port`lastData, scratch
      ensures Valid()
      ensures FrameRun(outcome, buf, Ahead()) == NextFrame(old(buf), old(Ahead()), deadline, readTimeout)
      ensures outcome.Frame? ==> frame == TrimCR(outcome.raw)
    {
      while true
        invariant Valid()
        invariant NextFrame(buf, Ahead(), deadline, readTimeout) == NextFrame(old(buf), old(Ahead()), deadline, readTimeout)
        decreases Max(0, deadline - port.now), MAX_FRAME + SCRATCH - |buf|
      {
        ghost var turn := StepFrame(buf, Ahead(), deadline, readTimeout);
        FrameUnfolds(buf, Ahead(), deadline, readTimeout, turn);
        StepTimes(buf, Ahead(), deadline, readTimeout);
        var done;
        done, frame := FrameTurn(deadline);
        if done.Some? {
          outcome := done.value;
          return;
        }
      }
    }

    /** The body of the loop of `waitQuiet`: `None` means it goes round again. */
    method QuietTurn(ctx: Ctx, gap: int, deadline: int, lastByte: int) returns (outcome: Option<QuietOutcome>, left: Ctx, last: int)
      requires Valid()
      modifies this`portTimeout, port`now, port`timeout, port`script, port`lastData, scratch
      ensures Valid()
      ensures (match outcome
               case Some(o) => Settled(QuietRun(o, Ahead(), left))
               case None => Listen(Ahead(), left, last)) == StepQuiet(old(Ahead()), ctx, gap, deadline, lastByte)
      ensures outcome == Some(Quiet) || outcome == Some(Busy) ==> port.lastData == old(port.lastData)
      ensures outcome == None ==> (last == lastByte && port.lastData == old(port.lastData)) || old(port.now) <= last == port.lastData
    {
      left, last := ctx.Checked(), lastByte;
      if ctx.Done() {
        return Some(QuietCancelled), left, last;
      }
      var silence := port.now - lastByte;
      if silence >= gap {
        return Some(Quiet), left, last;
      }
      var remaining := deadline - port.now;
      if remaining <= 0 {
        return Some(Busy), left, last;
      }
      var n, fault := Read(Min(gap - silence, remaining));
      if Hard(fault) {
        return Some(QuietFailed(fault.value)), left, last;
      }
      outcome := None;
      if n > 0 {
        last := port.now;
      } else if port.now - lastByte < gap {
        port.Sleep(IDLE_POLL);
      }
    }

    /** `waitQuiet`. Silence only counts once it has lasted a whole gap, and is enough once it has,
        give or take an idle poll; the bus is called busy only if it never lasted that long. */
    method AwaitQuiet(ctx: Ctx, gap: int, maxWait: int) returns (outcome: QuietOutcome, left: Ctx)
      requires Valid()
      modifies this`portTimeout, port`now, port`timeout, port`script, port`lastData, scratch
      ensures Valid()
      ensures QuietRun(outcome, Ahead(), left) == WaitQuiet(old(Ahead()), ctx, gap, maxWait)
      ensures outcome.Quiet? ==> gap <= port.now - Max(old(port.now), port.lastData) < Max(1, gap + IDLE_POLL)
      ensures outcome.Busy? ==> port.now - Max(old(port.now), port.lastData) < gap
      ensures outcome.QuietCancelled? ==> left.Done()
    {
      var start := port.now;
      var deadline := start + maxWait;
      var lastByte := start;
      left := ctx;
      while true
        invariant Valid()
        invariant WaitQuietFrom(Ahead(), left, gap, deadline, lastByte) == WaitQuiet(old(Ahead()), ctx, gap, maxWait)
        invariant lastByte == Max(start, port.lastData) <= port.now
        invariant port.now - lastByte < Max(1, gap + IDLE_POLL)
        decreases |port.script|, Max(0, deadline - port.now)
      {
        ghost var turn := StepQuiet(Ahead(), left, gap, deadline, lastByte);
        QuietUnfolds(Ahead(), left, gap, deadline, lastByte, turn);
        QuietTimes(Ahead(), left, gap, deadline, lastByte);
        hide StepQuiet, WaitQuietFrom;
        var done;
        done, left, lastByte := QuietTurn(left, gap, deadline, lastByte);
        if done.Some? {
          outcome := done.value;
          return;
        }
      }
    }

    method Reset()
      modifies this`buf
      ensures buf == ""
    {
      buf := "";
    }
  }
}
