/** A byte stream as newline-terminated lines: the meaning the framing layer is held to. */
module Lines {

  /** Position of the first newline, or the length when there is none. */
  function NewlineAt(s: string): (i: nat)
    ensures i <= |s|
    ensures i < |s| ==> s[i] == '\n'
    ensures forall k :: 0 <= k < i ==> s[k] != '\n'
  {
    if s == "" || s[0] == '\n' then 0 else 1 + NewlineAt(s[1..])
  }

  /** The complete lines of a stream without their newlines, and what follows the last one. */
  datatype Scanned = Scanned(lines: seq<string>, rest: string) {
    function Next(c: char): Scanned {
      if c == '\n' then Scanned(lines + [rest], "") else Scanned(lines, rest + [c])
    }

    function After(earlier: seq<string>): Scanned { Scanned(earlier + lines, rest) }
  }

  function Scan(s: string): Scanned {
    if s == "" then Scanned([], "") else Scan(s[..|s| - 1]).Next(s[|s| - 1])
  }

  /** No run of more than `limit` bytes without a newline. */
  ghost predicate NoLongRun(s: string, limit: nat) {
    forall i, j :: 0 <= i <= j <= |s| && '\n' !in s[i..j] ==> j - i <= limit
  }

  lemma {:induction false} ScanPlain(s: string)
    requires '\n' !in s
    ensures Scan(s) == Scanned([], s)
  {
    if s != "" {
      var t := s[..|s| - 1];
      assert s == t + [s[|s| - 1]] && s[|s| - 1] in s;
      ScanPlain(t);
    }
  }

  lemma {:induction false} RestHasNoNewline(s: string)
    ensures '\n' !in Scan(s).rest
  {
    if s != "" {
      RestHasNoNewline(s[..|s| - 1]);
    }
  }

  lemma NewlineIsAt(s: string, i: nat)
    requires i <= |s| && (i < |s| ==> s[i] == '\n') && forall k :: 0 <= k < i ==> s[k] != '\n'
    ensures NewlineAt(s) == i
  {
    hide NewlineAt;
    assert NewlineAt(s) <= |s|;
  }

  lemma NewlineOfMore(a: string, b: string)
    ensures NewlineAt(a + b) == if '\n' in a then NewlineAt(a) else |a| + NewlineAt(b)
    ensures '\n' in a <==> NewlineAt(a) < |a|
  {
    hide NewlineAt;
    var s, i := a + b, if '\n' in a then NewlineAt(a) else |a| + NewlineAt(b);
    assert '\n' in a ==> NewlineAt(a) < |a|;
    forall k | 0 <= k < i ensures s[k] != '\n' {
      assert s[k] == if k < |a| then a[k] else b[k - |a|];
    }
    NewlineIsAt(s, i);
  }

  /** Bytes added at the end never change a line that is already complete. */
  lemma {:induction false} ScanAppend(a: string, b: string)
    ensures Scan(a + b) == Scan(Scan(a).rest + b).After(Scan(a).lines)
    decreases |b|
  {
    var r := Scan(a).rest;
    if b == "" {
      assert a + b == a && r + b == r;
      RestHasNoNewline(a);
      ScanPlain(r);
    } else {
      var n := |b| - 1;
      ScanAppend(a, b[..n]);
      assert (a + b)[..|a + b| - 1] == a + b[..n] && (r + b)[..|r + b| - 1] == r + b[..n];
      assert (a + b)[|a + b| - 1] == b[n] && (r + b)[|r + b| - 1] == b[n];
    }
  }

  /** A stream that starts with a whole line. */
  lemma ScanLine(raw: string, tail: string)
    requires '\n' !in raw
    ensures Scan(raw + "\n" + tail) == Scan(tail).After([raw])
  {
    ScanPlain(raw);
    assert (raw + "\n")[..|raw|] == raw;
    assert Scan(raw + "\n") == Scanned([raw], "");
    ScanAppend(raw + "\n", tail);
    assert "" + tail == tail;
  }

  lemma ConcatAssociates(a: string, b: string, c: string)
    ensures a + (b + c) == a + b + c
  {
  }

  /** Lines with their newlines, one after the other. */
  function Joined(lines: seq<string>): string {
    if lines == [] then "" else lines[0] + "\n" + Joined(lines[1..])
  }

  /** What scanning means: the stream is its lines, each followed by a newline, and then the
      rest, and a newline is nowhere else. */
  lemma {:induction false} ScanSplitsAtNewlines(s: string)
    ensures s == Joined(Scan(s).lines) + Scan(s).rest && '\n' !in Scan(s).rest
    ensures forall line :: line in Scan(s).lines ==> '\n' !in line
    decreases |s|
  {
    var i := NewlineAt(s);
    if i == |s| {
      ScanPlain(s);
      assert s == "" + s;
    } else {
      var raw, tail := s[..i], s[i + 1..];
      assert s == raw + "\n" + tail;
      ScanLine(raw, tail);
      ScanSplitsAtNewlines(tail);
      assert ([raw] + Scan(tail).lines)[1..] == Scan(tail).lines;
      ConcatAssociates(raw + "\n", Joined(Scan(tail).lines), Scan(tail).rest);
    }
  }
}
