/** What a call does that others can see, in order, and the discipline of checking again before
    every publish: a newer command or a preempting write stops at the next check whatever was
    still to be published. */
module CheckedPublish {
  import opened ConfirmedRead

  /** How the wire took a command. `Broken`: the send was cancelled; `Failed`: it failed. */
  datatype SendAnswer = Taken | Broken | Failed

  /** `ReadBack` notes the world in which the read was asked for, and what the read returned. */
  datatype Act =
    | Checked(ok: bool)
    | Tried(command: string, answer: SendAnswer)
    | ReadBack(name: string, asked: World, outcome: ReadOutcome)
    | Judged(passed: bool)
    | Published(topic: string, text: string)
    | StatePublished(topic: string, text: string)

  predicate IsPublish(a: Act) { a.Published? || a.StatePublished? }

  /** A check passed and nothing has been published since. */
  predicate Armed(acts: seq<Act>) {
    if acts == [] then false
    else
      match acts[|acts| - 1]
      case Checked(ok) => ok
      case Published(_, _) => false
      case StatePublished(_, _) => false
      case _ => Armed(acts[..|acts| - 1])
  }

  /** Every publish has its own passing check. */
  predicate Guarded(acts: seq<Act>) {
    acts == [] || (Guarded(acts[..|acts| - 1]) && (IsPublish(acts[|acts| - 1]) ==> Armed(acts[..|acts| - 1])))
  }

  function Publications(acts: seq<Act>): nat {
    if acts == [] then 0 else Publications(acts[..|acts| - 1]) + if IsPublish(acts[|acts| - 1]) then 1 else 0
  }

  lemma Appended(acts: seq<Act>, a: Act)
    ensures (acts + [a])[..|acts|] == acts
    ensures Guarded(acts + [a]) <==> Guarded(acts) && (IsPublish(a) ==> Armed(acts))
    ensures Armed(acts + [a]) == if a.Checked? then a.ok else if IsPublish(a) then false else Armed(acts)
    ensures Publications(acts + [a]) == Publications(acts) + if IsPublish(a) then 1 else 0
  {
    assert (acts + [a])[..|acts|] == acts;
  }

  /** From the p-th act on no check passes: a newer command had been accepted, or the context
      cancelled, by then. */
  ghost predicate TrippedAt(acts: seq<Act>, p: nat) {
    forall i :: p <= i < |acts| && acts[i].Checked? ==> !acts[i].ok
  }

  lemma {:induction false} PublishesLeft(acts: seq<Act>, p: nat)
    requires Guarded(acts) && p <= |acts| && TrippedAt(acts, p)
    ensures Publications(acts[p..]) <= if Armed(acts[..p]) then 1 else 0
    ensures Armed(acts) ==> Armed(acts[..p]) && Publications(acts[p..]) == 0
  {
    var n := |acts|;
    if p == n {
      assert acts[..p] == acts;
    } else {
      var before := acts[..n - 1];
      PublishesLeft(before, p);
      assert before[..p] == acts[..p];
      assert acts[p..][..n - 1 - p] == before[p..];
    }
  }

  /** The answers of the checks, in order. */
  function Checks(acts: seq<Act>): seq<bool> {
    if acts == [] then []
    else
      match acts[|acts| - 1]
      case Checked(ok) => Checks(acts[..|acts| - 1]) + [ok]
      case _ => Checks(acts[..|acts| - 1])
  }

  lemma ChecksGrow(acts: seq<Act>, a: Act)
    ensures Checks(acts + [a]) == if a.Checked? then Checks(acts) + [a.ok] else Checks(acts)
  {
    assert (acts + [a])[..|acts|] == acts;
  }

  /** Where an act stands among the checks. */
  lemma {:induction false} CheckAt(acts: seq<Act>, p: nat, i: nat)
    requires p <= i < |acts| && acts[i].Checked?
    ensures |Checks(acts[..p])| <= |Checks(acts[..i])| < |Checks(acts)| && Checks(acts)[|Checks(acts[..i])|] == acts[i].ok
  {
    var n := |acts| - 1;
    var before := acts[..n];
    assert acts == before + [acts[n]];
    ChecksGrow(before, acts[n]);
    if i < n {
      assert before[..p] == acts[..p] && before[..i] == acts[..i];
      CheckAt(before, p, i);
    } else {
      MoreChecks(before, p);
      assert before[..p] == acts[..p];
    }
  }

  lemma {:induction false} MoreChecks(acts: seq<Act>, p: nat)
    requires p <= |acts|
    ensures |Checks(acts[..p])| <= |Checks(acts)|
  {
    if p == |acts| {
      assert acts[..p] == acts;
    } else {
      var n := |acts| - 1;
      assert acts[..n][..p] == acts[..p];
      MoreChecks(acts[..n], p);
    }
  }

  lemma {:induction false} UncheckedIsUnarmed(acts: seq<Act>)
    requires Checks(acts) == []
    ensures !Armed(acts)
  {
    if acts != [] {
      UncheckedIsUnarmed(acts[..|acts| - 1]);
    }
  }

  /** The publish bound: wherever the trip comes, at most one more publish follows it, and none
      if no check had passed since the publish before it; so none if it precedes the first check. */
  lemma AtMostOneAfterTrip(acts: seq<Act>, p: nat)
    requires Guarded(acts) && p <= |acts| && TrippedAt(acts, p)
    ensures Publications(acts[p..]) <= 1
    ensures !Armed(acts[..p]) ==> Publications(acts[p..]) == 0
    ensures Checks(acts[..p]) == [] ==> Publications(acts[p..]) == 0
  {
    PublishesLeft(acts, p);
    if Checks(acts[..p]) == [] {
      UncheckedIsUnarmed(acts[..p]);
    }
  }
}
