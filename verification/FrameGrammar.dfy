/** The response-frame grammar of `internal/serial/serial.go`: what `ParseResponse` accepts,
    stated independently of how it trims and splits. */
module FrameGrammar {
  import opened Basics
  import opened Lines

  // ---- the program's own functions -------------------------------------------------

  predicate Printable(c: char) { ' ' <= c <= '~' }

  /** What is stripped from both ends of a line. */
  predicate Edge(c: char) { c == ' ' || !Printable(c) }

  /** ASCII white space, the separators of `strings.Fields`. */
  predicate Space(c: char) { c == ' ' || '\t' <= c <= '\r' }

  predicate Digit(c: char) { '0' <= c <= '9' }

  predicate AllDigits(s: string) { forall i :: 0 <= i < |s| ==> Digit(s[i]) }

  predicate AllPrintable(s: string) { forall i :: 0 <= i < |s| ==> Printable(s[i]) }

  predicate AllEdge(s: string) { forall i :: 0 <= i < |s| ==> Edge(s[i]) }

  function TrimLeft(s: string): string {
    if s != "" && Edge(s[0]) then TrimLeft(s[1..]) else s
  }

  function TrimRight(s: string): string {
    if s != "" && Edge(s[|s| - 1]) then TrimRight(s[..|s| - 1]) else s
  }

  function Trim(s: string): string { TrimRight(TrimLeft(s)) }

  /** Length of the leading run of non-space characters. */
  function WordLen(s: string): (n: nat)
    ensures n <= |s|
    ensures forall i :: 0 <= i < n ==> !Space(s[i])
    ensures n < |s| ==> Space(s[n])
  {
    if s == "" || Space(s[0]) then 0 else 1 + WordLen(s[1..])
  }

  function Fields(s: string): seq<string>
    decreases |s|
  {
    if s == "" then []
    else if Space(s[0]) then Fields(s[1..])
    else [s[..WordLen(s)]] + Fields(s[WordLen(s)..])
  }

  predicate IsInteger(s: string) {
    var t := if s != "" && s[0] == '-' then s[1..] else s;
    t != "" && AllDigits(t)
  }

  function ParseLine(line: string, want: string): Option<string> {
    var body := Trim(line);
    if !AllPrintable(body) then None
    else
      var parts := Fields(body);
      if |parts| != 3 || !IsInteger(parts[2]) then None
      else if parts[0] + " " + parts[1] == want then Some(parts[2])
      else None
  }

  /** `ParseResponse`: the value of the first line that answers the expected command. */
  function ParseResponse(response: string, want: string): Option<string>
    decreases |response|
  {
    var i := NewlineAt(response);
    var first := ParseLine(response[..i], want);
    if first.Some? then first
    else if i == |response| then None
    else ParseResponse(response[i + 1..], want)
  }

  function CommandPrefix(command: string): string {
    var fields := Fields(command);
    if |fields| < 2 then TrimSpace(command) else fields[0] + " " + fields[1]
  }

  function TrimSpace(s: string): string
    decreases |s|
  {
    if s == "" then s
    else if Space(s[0]) then TrimSpace(s[1..])
    else if Space(s[|s| - 1]) then TrimSpace(s[..|s| - 1])
    else s
  }

  // ---- the grammar, independently --------------------------------------------------

  /** A field: printable, not empty, no space. */
  predicate Word(s: string) { s != "" && forall i :: 0 <= i < |s| ==> '!' <= s[i] <= '~' }

  predicate Blanks(s: string) { s != "" && forall i :: 0 <= i < |s| ==> s[i] == ' ' }

  /** `-?[0-9]+` */
  predicate Number(v: string) {
    v != "" && v != "-" && (v[0] == '-' || Digit(v[0])) && forall i :: 1 <= i < |v| ==> Digit(v[i])
  }

  /** A frame: node, register and value, kept apart by blanks. */
  datatype Frame = Frame(node: string, gap1: string, register: string, gap2: string, number: string) {
    predicate Ok() { Word(node) && Blanks(gap1) && Word(register) && Blanks(gap2) && Number(number) }

    function Text(): string { node + gap1 + register + gap2 + number }

    function Prefix(): string { node + " " + register }
  }

  /** `s` is a frame answering `want` with value `v`, with any noise around it. */
  ghost predicate Answers(s: string, want: string, v: string) {
    exists before: string, f: Frame, after: string ::
      s == before + f.Text() + after && AllEdge(before) && AllEdge(after) && f.Ok() && f.Prefix() == want && f.number == v
  }

  // ---- trimming --------------------------------------------------------------------

  lemma TrimLeftNoise(noise: string, core: string)
    requires AllEdge(noise) && core != "" && !Edge(core[0])
    ensures TrimLeft(noise + core) == core
  {
    if noise == "" {
      assert noise + core == core;
    } else {
      assert (noise + core)[1..] == noise[1..] + core;
      TrimLeftNoise(noise[1..], core);
    }
  }

  lemma TrimRightNoise(core: string, noise: string)
    requires AllEdge(noise) && core != "" && !Edge(core[|core| - 1])
    ensures TrimRight(core + noise) == core
  {
    if noise == "" {
      assert core + noise == core;
    } else {
      var n := |noise| - 1;
      assert (core + noise)[..|core| + n] == core + noise[..n];
      TrimRightNoise(core, noise[..n]);
    }
  }

  lemma TrimNoise(before: string, core: string, after: string)
    requires AllEdge(before) && AllEdge(after)
    requires core != "" && !Edge(core[0]) && !Edge(core[|core| - 1])
    ensures Trim(before + core + after) == core
  {
    assert before + core + after == before + (core + after);
    TrimLeftNoise(before, core + after);
    TrimRightNoise(core, after);
  }

  lemma {:induction false} TrimLeftParts(s: string) returns (noise: string)
    ensures s == noise + TrimLeft(s) && AllEdge(noise)
    ensures TrimLeft(s) == "" || !Edge(TrimLeft(s)[0])
  {
    if s != "" && Edge(s[0]) {
      var more := TrimLeftParts(s[1..]);
      noise := [s[0]] + more;
    } else {
      noise := "";
    }
  }

  lemma {:induction false} TrimRightParts(s: string) returns (noise: string)
    ensures s == TrimRight(s) + noise && AllEdge(noise)
    ensures TrimRight(s) != "" ==> !Edge(TrimRight(s)[|TrimRight(s)| - 1]) && TrimRight(s)[0] == s[0]
  {
    if s != "" && Edge(s[|s| - 1]) {
      var more := TrimRightParts(s[..|s| - 1]);
      noise := more + [s[|s| - 1]];
    } else {
      noise := "";
    }
  }

  // ---- fields ----------------------------------------------------------------------

  ghost predicate AllSpace(s: string) { forall i :: 0 <= i < |s| ==> Space(s[i]) }

  ghost predicate NoSpace(s: string) { forall i :: 0 <= i < |s| ==> !Space(s[i]) }

  lemma WordLenPrefix(w: string, rest: string)
    requires forall i :: 0 <= i < |w| ==> !Space(w[i])
    ensures WordLen(w + rest) == |w| + WordLen(rest)
  {
    if w == "" {
      assert w + rest == rest;
    } else {
      assert (w + rest)[1..] == w[1..] + rest;
      WordLenPrefix(w[1..], rest);
    }
  }

  lemma FieldsOfWord(w: string, rest: string)
    requires w != "" && NoSpace(w) && (rest == "" || Space(rest[0]))
    ensures Fields(w + rest) == [w] + Fields(rest)
  {
    WordLenPrefix(w, rest);
    assert (w + rest)[..|w|] == w && (w + rest)[|w|..] == rest;
  }

  lemma FieldsOfBlanks(gap: string, rest: string)
    requires forall i :: 0 <= i < |gap| ==> Space(gap[i])
    ensures Fields(gap + rest) == Fields(rest)
  {
    if gap == "" {
      assert gap + rest == rest;
    } else {
      assert (gap + rest)[1..] == gap[1..] + rest;
      FieldsOfBlanks(gap[1..], rest);
    }
  }

  lemma FieldsOfFrame(f: Frame)
    requires f.Ok()
    ensures Fields(f.Text()) == [f.node, f.register, f.number]
  {
    var tail := f.gap2 + f.number;
    assert f.Text() == f.node + (f.gap1 + (f.register + tail));
    FieldsOfWord(f.node, f.gap1 + (f.register + tail));
    FieldsOfBlanks(f.gap1, f.register + tail);
    FieldsOfWord(f.register, tail);
    FieldsOfBlanks(f.gap2, f.number);
    assert f.number + "" == f.number;
    FieldsOfWord(f.number, "");
  }

  /** The first field, what precedes it and what follows it. */
  lemma {:induction false} FirstField(s: string) returns (gap: string, rest: string)
    requires Fields(s) != []
    ensures s == gap + Fields(s)[0] + rest
    ensures forall i :: 0 <= i < |gap| ==> Space(gap[i])
    ensures Fields(s)[0] != "" && forall i :: 0 <= i < |Fields(s)[0]| ==> !Space(Fields(s)[0][i])
    ensures Fields(rest) == Fields(s)[1..] && (rest == "" || Space(rest[0]))
    decreases |s|
  {
    if Space(s[0]) {
      var more;
      more, rest := FirstField(s[1..]);
      gap := [s[0]] + more;
    } else {
      gap, rest := "", s[WordLen(s)..];
    }
  }

  /** Gluing two strings can merge at most one pair of fields. */
  lemma {:induction false} FieldsOfGlued(a: string, b: string)
    ensures |Fields(a + b)| + 1 >= |Fields(a)| + |Fields(b)|
    ensures |Fields(a + b)| >= |Fields(b)|
    decreases |a|
  {
    if a == "" {
      assert a + b == b;
    } else if Space(a[0]) {
      assert (a + b)[1..] == a[1..] + b;
      FieldsOfGlued(a[1..], b);
    } else {
      var n := WordLen(a);
      if n < |a| {
        WordLenPrefix(a[..n], a[n..] + b);
        assert a + b == a[..n] + (a[n..] + b);
        assert (a + b)[n..] == a[n..] + b;
        FieldsOfGlued(a[n..], b);
      } else {
        WordGlued(a, b);
      }
    }
  }

  lemma OneFieldFewer(b: string)
    ensures |Fields(b)| <= 1 + |Fields(b[WordLen(b)..])|
  {
    if b == "" || Space(b[0]) {
      assert b[WordLen(b)..] == b;
    }
  }

  lemma WordGlued(w: string, b: string)
    requires w != "" && NoSpace(w)
    ensures |Fields(w)| == 1 && |Fields(w + b)| >= |Fields(b)|
  {
    WordLenPrefix(w, b);
    OneFieldFewer(b);
    assert (w + b)[WordLen(w + b)..] == b[WordLen(b)..];
    FieldsOfWord(w, "");
    assert w + "" == w;
  }

  // ---- exactness -------------------------------------------------------------------

  lemma NumberIsInteger(v: string)
    ensures Number(v) <==> IsInteger(v)
  {
    if v != "" {
      var t := v[1..];
      assert v == [v[0]] + t;
      assert AllDigits(t) <==> forall i :: 1 <= i < |v| ==> Digit(v[i]) by {
        assert forall i :: 1 <= i < |v| ==> v[i] == t[i - 1];
        assert forall i :: 0 <= i < |t| ==> t[i] == v[i + 1];
      }
    }
  }

  lemma FrameEdges(f: Frame)
    requires f.Ok()
    ensures f.Text() != "" && !Edge(f.Text()[0]) && !Edge(f.Text()[|f.Text()| - 1])
    ensures AllPrintable(f.Text())
  {
    var t := f.Text();
    assert t[0] == f.node[0] && t[|t| - 1] == f.number[|f.number| - 1];
    assert forall i :: 0 <= i < |t| ==>
      t[i] in f.node || t[i] in f.gap1 || t[i] in f.register || t[i] in f.gap2 || t[i] in f.number;
  }

  /** A field of a printable line is a word. */
  lemma PrintableFieldIsWord(body: string, at: nat, w: string)
    requires AllPrintable(body) && at + |w| <= |body| && w == body[at..at + |w|] && w != ""
    requires forall i :: 0 <= i < |w| ==> !Space(w[i])
    ensures Word(w)
  {
    forall i | 0 <= i < |w| ensures '!' <= w[i] <= '~' {
      assert Printable(body[at + i]) && w[i] == body[at + i];
    }
  }

  /** A gap of a printable line is all blanks. */
  lemma PrintableGapIsBlank(body: string, at: nat, g: string)
    requires AllPrintable(body) && at + |g| <= |body| && g == body[at..at + |g|]
    requires forall i :: 0 <= i < |g| ==> Space(g[i])
    ensures forall i :: 0 <= i < |g| ==> g[i] == ' '
  {
    forall i | 0 <= i < |g| ensures g[i] == ' ' {
      assert Printable(body[at + i]) && g[i] == body[at + i];
    }
  }

  lemma Flatten(before: string, f: Frame, after: string)
    ensures before + f.node + (f.gap1 + f.register + (f.gap2 + f.number + after)) == before + f.Text() + after
  {
    var tail := f.gap2 + f.number + after;
    assert f.gap1 + f.register + tail == f.gap1 + f.register + f.gap2 + f.number + after;
    assert f.Text() == f.node + (f.gap1 + f.register + f.gap2 + f.number);
  }

  /** Three fields are those fields with a gap between each two, and blanks around. */
  lemma SplitInThree(body: string) returns (g0: string, f: Frame, g3: string)
    requires |Fields(body)| == 3
    ensures Fields(body) == [f.node, f.register, f.number] && body == g0 + f.Text() + g3
    ensures f.node != "" && f.register != "" && NoSpace(f.node) && NoSpace(f.register)
    ensures f.gap1 != "" && f.gap2 != "" && AllSpace(g0) && AllSpace(f.gap1) && AllSpace(f.gap2) && AllSpace(g3)
  {
    var g1, g2, r0, r1;
    g0, r0 := FirstField(body);
    g1, r1 := FirstField(r0);
    g2, g3 := FirstField(r1);
    NoFieldsIsBlank(g3);
    f := Frame(Fields(body)[0], g1, Fields(r0)[0], g2, Fields(r1)[0]);
    Flatten(g0, f, g3);
  }

  lemma BlanksShowAtTheEdges(before: string, middle: string, after: string)
    requires AllSpace(before) && AllSpace(after) && before + middle + after != ""
    ensures before != "" ==> Edge((before + middle + after)[0])
    ensures after != "" ==> Edge((before + middle + after)[|before + middle + after| - 1])
  {
  }

  lemma PrintablePartsAreOk(f: Frame)
    requires AllPrintable(f.Text()) && IsInteger(f.number)
    requires f.node != "" && f.register != "" && f.gap1 != "" && f.gap2 != ""
    requires NoSpace(f.node) && NoSpace(f.register) && AllSpace(f.gap1) && AllSpace(f.gap2)
    ensures f.Ok()
  {
    var body := f.Text();
    PrintableFieldIsWord(body, 0, f.node);
    PrintableGapIsBlank(body, |f.node|, f.gap1);
    PrintableFieldIsWord(body, |f.node| + |f.gap1|, f.register);
    PrintableGapIsBlank(body, |f.node| + |f.gap1| + |f.register|, f.gap2);
    NumberIsInteger(f.number);
  }

  lemma TrimmedFieldsAreFrame(body: string) returns (f: Frame)
    requires body != "" && !Edge(body[0]) && !Edge(body[|body| - 1]) && AllPrintable(body)
    requires |Fields(body)| == 3 && IsInteger(Fields(body)[2])
    ensures body == f.Text() && f.Ok() && Fields(body) == [f.node, f.register, f.number]
  {
    var g0, g3;
    g0, f, g3 := SplitInThree(body);
    BlanksShowAtTheEdges(g0, f.Text(), g3);
    assert g0 == "" && g3 == "";
    assert body == f.Text();
    PrintablePartsAreOk(f);
  }

  lemma AcceptedIsFrame(s: string, want: string, v: string)
    requires ParseLine(s, want) == Some(v)
    ensures Answers(s, want, v)
  {
    var before := TrimLeftParts(s);
    var after := TrimRightParts(TrimLeft(s));
    var f := TrimmedFieldsAreFrame(Trim(s));
    ConcatAssociates(before, f.Text(), after);
  }

  lemma {:induction false} NoFieldsIsBlank(s: string)
    requires Fields(s) == []
    ensures forall i :: 0 <= i < |s| ==> Space(s[i])
    decreases |s|
  {
    if s != "" {
      assert Space(s[0]);
      NoFieldsIsBlank(s[1..]);
      assert s == [s[0]] + s[1..];
    }
  }

  lemma FrameIsAccepted(before: string, f: Frame, after: string)
    requires AllEdge(before) && AllEdge(after) && f.Ok()
    ensures ParseLine(before + f.Text() + after, f.Prefix()) == Some(f.number)
  {
    FrameEdges(f);
    TrimNoise(before, f.Text(), after);
    FieldsOfFrame(f);
    NumberIsInteger(f.number);
  }

  lemma ParseOneLine(s: string, want: string)
    requires '\n' !in s
    ensures ParseResponse(s, want) == ParseLine(s, want)
  {
    assert NewlineAt(s) == |s| && s[..|s|] == s;
  }

  /** Exactness: on one line, `ParseResponse` returns v if and only if the line is a frame
      answering the command with v, whatever noise surrounds it. */
  lemma Exactness(s: string, want: string, v: string)
    requires '\n' !in s
    ensures ParseResponse(s, want) == Some(v) <==> Answers(s, want, v)
  {
    ParseOneLine(s, want);
    if ParseLine(s, want) == Some(v) {
      AcceptedIsFrame(s, want, v);
    }
    if Answers(s, want, v) {
      var before, f: Frame, after :|
        s == before + f.Text() + after && AllEdge(before) && AllEdge(after) && f.Ok() && f.Prefix() == want && f.number == v;
      FrameIsAccepted(before, f, after);
    }
  }

  /** Printing a reply and parsing it back is the identity, under any noise at the edges. */
  lemma PrintThenParse(before: string, node: string, register: string, v: string, after: string)
    requires Word(node) && Word(register) && Number(v)
    requires AllEdge(before) && AllEdge(after) && '\n' !in before && '\n' !in after
    ensures ParseResponse(before + node + " " + register + " " + v + after, node + " " + register) == Some(v)
  {
    var f := Frame(node, " ", register, " ", v);
    var s := before + f.Text() + after;
    assert s == before + node + " " + register + " " + v + after;
    FrameEdges(f);
    assert '\n' !in s by { assert forall c :: c in s ==> c in before || c in f.Text() || c in after; }
    Exactness(s, f.Prefix(), v);
  }

  /** A splice is always refused: two whole frames on one line, with anything or nothing
      between and around them, answer no command at all. */
  lemma SplicedFramesRejected(before: string, f: Frame, between: string, g: Frame, after: string, want: string)
    requires f.Ok() && g.Ok() && AllEdge(before) && AllEdge(after)
    requires '\n' !in before + f.Text() + between + g.Text() + after
    ensures ParseResponse(before + f.Text() + between + g.Text() + after, want) == None
  {
    var s := before + f.Text() + between + g.Text() + after;
    ParseOneLine(s, want);
    FrameEdges(f);
    FrameEdges(g);
    FieldsOfFrame(f);
    FieldsOfFrame(g);
    SpliceParses(before, f.Text(), between, g.Text(), after, want);
  }

  lemma SpliceParses(before: string, a: string, between: string, b: string, after: string, want: string)
    requires AllEdge(before) && AllEdge(after) && a != "" && b != "" && !Edge(a[0]) && !Edge(b[|b| - 1])
    requires |Fields(a)| == 3 && |Fields(b)| == 3
    ensures ParseLine(before + a + between + b + after, want) == None
  {
    var core := a + (between + b);
    assert before + a + between + b + after == before + core + after by { ConcatAssociates(before + a, between, b); ConcatAssociates(before, a, between + b); }
    assert core != "" && core[0] == a[0] && core[|core| - 1] == b[|b| - 1];
    TrimNoise(before, core, after);
    FieldsOfGlued(between, b);
    FieldsOfGlued(a, between + b);
    assert |Fields(core)| >= 5;
  }

  lemma FieldAfterBlanks(gap: string, w: string, rest: string)
    requires AllSpace(gap) && w != "" && NoSpace(w) && (rest == "" || Space(rest[0]))
    ensures Fields(gap + (w + rest)) == [w] + Fields(rest)
  {
    FieldsOfBlanks(gap, w + rest);
    FieldsOfWord(w, rest);
  }

  lemma FirstTwoFields(lead: string, node: string, more: string, gap: string, register: string, rest: string)
    requires AllSpace(lead) && node != "" && NoSpace(node) && gap != "" && AllSpace(gap) && register != "" && NoSpace(register)
    requires (rest == "" || Space(rest[0])) && more == gap + (register + rest)
    ensures |Fields(lead + (node + more))| >= 2 && Fields(lead + (node + more))[..2] == [node, register]
  {
    FieldAfterBlanks(gap, register, rest);
    assert more[0] == gap[0];
    FieldAfterBlanks(lead, node, more);
  }

  /** A reply can only be accepted for the node and register its command named, whatever white
      space it was written with and whatever follows them. */
  lemma CommandPrefixNamesTarget(lead: string, node: string, gap: string, register: string, rest: string)
    requires AllSpace(lead) && node != "" && NoSpace(node) && gap != "" && AllSpace(gap) && register != "" && NoSpace(register)
    requires rest == "" || Space(rest[0])
    ensures CommandPrefix(lead + node + gap + register + rest) == node + " " + register
  {
    var more := gap + (register + rest);
    FirstTwoFields(lead, node, more, gap, register, rest);
    assert lead + node + gap + register + rest == lead + (node + more) by {
      ConcatAssociates(lead + node + gap, register, rest);
      ConcatAssociates(lead + node, gap, register + rest);
      ConcatAssociates(lead, node, more);
    }
    var fields := Fields(lead + (node + more));
    assert fields[0] == fields[..2][0] && fields[1] == fields[..2][1];
  }

  /** An accepted value is always an optionally negative run of digits. */
  lemma {:induction false} AcceptedIsInteger(response: string, want: string)
    ensures ParseResponse(response, want).Some? ==> IsInteger(ParseResponse(response, want).value)
    decreases |response|
  {
    var i := NewlineAt(response);
    if !ParseLine(response[..i], want).Some? && i < |response| {
      AcceptedIsInteger(response[i + 1..], want);
    }
  }
}
