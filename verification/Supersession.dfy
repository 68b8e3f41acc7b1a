/** A settle re-read and the newer commands that may overtake it at any moment. */
module Supersession {
  import opened Basics
  import opened Values
  import opened Samples
  import opened ConfirmedRead
  import opened CheckedPublish
  import opened Writing
  import opened ReadTrace

  /** No newer command was accepted before the k-th look. */
  predicate NoBump(bumps: seq<nat>, k: nat) { k == 0 || bumps == [] || (bumps[0] == 0 && NoBump(bumps[1..], k - 1)) }

  lemma {:induction false} NoBumpMeans(bumps: seq<nat>, k: nat, i: nat)
    requires NoBump(bumps, k) && i < k && i < |bumps|
    ensures bumps[i] == 0
  {
    if i > 0 {
      NoBumpMeans(bumps[1..], k - 1, i - 1);
    }
  }

  lemma {:induction false} NoBumpGrows(bumps: seq<nat>, k: nat)
    ensures NoBump(bumps, k + 1) <==> NoBump(bumps, k) && (k < |bumps| ==> bumps[k] == 0)
  {
    if k > 0 && bumps != [] {
      NoBumpGrows(bumps[1..], k - 1);
    }
  }

  /** What is left of the script after k looks. */
  function After(bumps: seq<nat>, k: nat): seq<nat> { if k < |bumps| then bumps[k..] else [] }

  /** The re-read so far: every publish follows a check of its own; the number only grows; and no
      check passes after a newer command was accepted. */
  ghost predicate Watching(bumps: seq<nat>, name: string, number: nat, s: Scene) {
    var looks := |Checks(s.acts)|;
    && Guarded(s.acts)
    && s.bumps == After(bumps, looks)
    && Count(s.accepted, name) >= number && (!NoBump(bumps, looks) ==> Count(s.accepted, name) > number)
    && forall i :: 0 <= i < looks && Checks(s.acts)[i] ==> NoBump(bumps, i + 1)
  }

  lemma LookWatches(bumps: seq<nat>, name: string, number: nat, s: Scene)
    requires number > 0 && Watching(bumps, name, number, s)
    ensures var t := Look(name, number, s);
      Watching(bumps, name, number, t) && Armed(t.acts) == (Count(t.accepted, name) == number)
  {
    var k := |Checks(s.acts)|;
    var seen := s.Looked(name);
    var ok := Count(seen.accepted, name) == number;
    Appended(s.acts, Checked(ok));
    ChecksGrow(s.acts, Checked(ok));
    assert k < |bumps| ==> s.bumps[0] == bumps[k] && s.bumps[1..] == After(bumps, k + 1);
    NoBumpGrows(bumps, k);
  }

  /** An act that is no check, and a publish only after a check. */
  lemma ActWatches(bumps: seq<nat>, name: string, number: nat, s: Scene, a: Act)
    requires Watching(bumps, name, number, s) && !a.Checked? && (IsPublish(a) ==> Armed(s.acts))
    ensures Watching(bumps, name, number, s.Act(a)) && (!IsPublish(a) ==> Armed(s.Act(a).acts) == Armed(s.acts))
  {
    Appended(s.acts, a);
    ChecksGrow(s.acts, a);
  }

  // ---- what is published was read --------------------------------------------------

  predicate IsReading(a: Act, name: string, text: string) {
    a.ReadBack? && a.name == name && a.outcome.Read? && a.outcome.sample.text == text
  }

  ghost predicate NoState(acts: seq<Act>) { forall i :: 0 <= i < |acts| ==> !acts[i].StatePublished? }

  /** Every value kept was read back, and no state has been published. */
  ghost predicate AllRead(values: map<string, string>, acts: seq<Act>) {
    NoState(acts) && forall name :: name in values ==> exists j :: 0 <= j < |acts| && IsReading(acts[j], name, values[name])
  }

  lemma StillRead(values: map<string, string>, acts: seq<Act>, a: Act)
    requires AllRead(values, acts) && !a.StatePublished?
    ensures AllRead(values, acts + [a])
  {
    forall name | name in values ensures exists j :: 0 <= j < |acts + [a]| && IsReading((acts + [a])[j], name, values[name]) {
      var j :| 0 <= j < |acts| && IsReading(acts[j], name, values[name]);
      assert (acts + [a])[j] == acts[j];
    }
  }

  lemma NewlyRead(values: map<string, string>, acts: seq<Act>, a: Act)
    requires AllRead(values, acts) && a.ReadBack? && a.outcome.Read?
    ensures AllRead(values[a.name := a.outcome.sample.text], acts + [a])
  {
    var more := acts + [a];
    assert IsReading(more[|acts|], a.name, a.outcome.sample.text);
    StillRead(values, acts, a);
  }

  // ---- the re-read -----------------------------------------------------------------

  lemma TookWatches(bumps: seq<nat>, owner: string, number: nat, topic: string, name: string, values: map<string, string>, r: ReadRun, s: Scene)
    requires Watching(bumps, owner, number, s) && Armed(s.acts) && AllRead(values, s.acts)
    ensures var step := Took(topic, name, values, r, s);
      step.Kept? && Watching(bumps, owner, number, step.scene) && AllRead(step.values, step.scene.acts)
  {
    var t, read := s.(world := r.world), ReadBack(name, s.world, r.outcome);
    assert Watching(bumps, owner, number, t);
    ActWatches(bumps, owner, number, t, read);
    StillRead(values, t.acts, read);
    if r.outcome.Read? {
      var text := r.outcome.sample.text;
      NewlyRead(values, t.acts, read);
      if topic != "" {
        ActWatches(bumps, owner, number, t.Act(read), Published(topic, text));
        StillRead(values[name := text], t.Act(read).acts, Published(topic, text));
      }
    }
  }

  lemma StepBackWatches(plan: Plan, bumps: seq<nat>, owner: string, number: nat, name: string, values: map<string, string>, s: Scene)
    requires number > 0 && Watching(bumps, owner, number, s) && AllRead(values, s.acts)
    ensures var step := StepBack(plan, owner, number, name, values, s);
      Watching(bumps, owner, number, step.scene) && NoState(step.scene.acts) && (step.Kept? ==> AllRead(step.values, step.scene.acts))
  {
    if name !in values {
      var t := Look(owner, number, s);
      LookWatches(bumps, owner, number, s);
      StillRead(values, s.acts, Checked(Count(t.accepted, owner) == number));
      if Count(t.accepted, owner) == number && name in plan.byName {
        var reg := plan.byName[name];
        TookWatches(bumps, owner, number, reg.topic, name, values, ReadSingle(RuleOf(reg), plan.readRetries, plan.readBackoff, t.world), t);
      }
    }
  }

  lemma {:induction false} BackWatches(plan: Plan, bumps: seq<nat>, owner: string, number: nat, names: seq<string>, values: map<string, string>, s: Scene)
    requires number > 0 && Watching(bumps, owner, number, s) && AllRead(values, s.acts)
    ensures var r := BackFrom(plan, owner, number, names, values, s);
      Watching(bumps, owner, number, r.scene) && NoState(r.scene.acts) && (r.values.Some? ==> AllRead(r.values.value, r.scene.acts))
    decreases |names|
  {
    if names != [] {
      var step := StepBack(plan, owner, number, names[0], values, s);
      BackUnfolds(plan, owner, number, names, values, s, step);
      StepBackWatches(plan, bumps, owner, number, names[0], values, s);
      if step.Kept? {
        BackWatches(plan, bumps, owner, number, names[1..], step.values, step.scene);
      }
    }
  }

  /** The last act of a re-read may be the publication of the state, which it had read. */
  ghost predicate StateWasRead(reg: WriteRegister, acts: seq<Act>) {
    forall i :: 0 <= i < |acts| && acts[i].StatePublished? ==>
      acts[i].topic == reg.topic && exists j :: 0 <= j < i && IsReading(acts[j], reg.stateFrom, acts[i].text)
  }

  lemma ShownWasRead(reg: WriteRegister, values: map<string, string>, acts: seq<Act>, shown: Act)
    requires AllRead(values, acts) && reg.stateFrom in values && shown == StatePublished(reg.topic, values[reg.stateFrom])
    ensures StateWasRead(reg, acts + [shown])
  {
    var more, n := acts + [shown], |acts|;
    assert forall i :: 0 <= i < n ==> more[i] == acts[i];
    var j :| 0 <= j < n && IsReading(acts[j], reg.stateFrom, values[reg.stateFrom]);
    assert IsReading(more[j], reg.stateFrom, more[n].text);
  }

  lemma StateWatches(bumps: seq<nat>, reg: WriteRegister, number: nat, values: map<string, string>, s: Scene)
    requires number > 0 && Watching(bumps, reg.name, number, s) && AllRead(values, s.acts)
    ensures var t := RefreshState(reg, number, values, s);
      Watching(bumps, reg.name, number, t) && StateWasRead(reg, t.acts)
  {
    if reg.stateFrom != "" && reg.topic != "" && reg.stateFrom in values {
      var t := Look(reg.name, number, s);
      var current := Count(t.accepted, reg.name) == number;
      LookWatches(bumps, reg.name, number, s);
      StillRead(values, s.acts, Checked(current));
      if current {
        var shown := StatePublished(reg.topic, values[reg.stateFrom]);
        ActWatches(bumps, reg.name, number, t, shown);
        ShownWasRead(reg, values, t.acts, shown);
      }
    }
  }

  lemma HeldWatches(plan: Plan, bumps: seq<nat>, reg: WriteRegister, number: nat, s: Scene)
    requires number > 0 && Watching(bumps, reg.name, number, s) && AllRead(map[], s.acts)
    ensures var t := RefreshHeld(plan, reg, number, s); Watching(bumps, reg.name, number, t) && StateWasRead(reg, t.acts)
  {
    if Checkable(plan, reg) {
      BackWatches(plan, bumps, reg.name, number, Names(reg), map[], s);
      var back := BackFrom(plan, reg.name, number, Names(reg), map[], s);
      if back.values.Some? {
        StateWatches(bumps, reg, number, back.values.value, back.scene);
      }
    }
  }

  lemma IdleWatches(name: string, number: nat, s: Scene)
    requires s.acts == [] && Count(s.accepted, name) >= number
    ensures Watching(s.bumps, name, number, s) && AllRead(map[], s.acts)
  {
    assert Checks(s.acts) == [] && Guarded(s.acts);
    assert After(s.bumps, 0) == s.bumps;
    assert NoBump(s.bumps, 0);
  }

  lemma FirstLookWatches(name: string, number: nat, s: Scene)
    requires number > 0 && s.acts == [] && Count(s.accepted, name) >= number
    ensures var t := Look(name, number, s); Watching(s.bumps, name, number, t) && AllRead(map[], t.acts)
  {
    IdleWatches(name, number, s);
    LookWatches(s.bumps, name, number, s);
    StillRead(map[], s.acts, Checked(Count(Look(name, number, s).accepted, name) == number));
  }

  lemma RefreshWatches(plan: Plan, reg: WriteRegister, number: nat, s: Scene)
    requires number > 0 && Count(s.accepted, reg.name) >= number
    ensures var t := Refresh(plan, reg, number, s); Watching(s.bumps, reg.name, number, t) && StateWasRead(reg, t.acts)
  {
    var t := Look(reg.name, number, s.(acts := []));
    FirstLookWatches(reg.name, number, s.(acts := []));
    if Count(t.accepted, reg.name) == number {
      HeldWatches(plan, s.bumps, reg, number, t);
    }
  }

  // ---- results ---------------------------------------------------------------------

  /** The supersession bound. A newer command is accepted when the re-read has done p acts and
      looked k times: at most one value is published from then on, and none if that was before
      the first look. */
  lemma SupersessionBound(plan: Plan, reg: WriteRegister, number: nat, s: Scene, p: nat)
    requires number > 0 && Count(s.accepted, reg.name) >= number && p <= |Refresh(plan, reg, number, s).acts|
    requires var k := |Checks(Refresh(plan, reg, number, s).acts[..p])|; k < |s.bumps| && s.bumps[k] > 0
    ensures var acts := Refresh(plan, reg, number, s).acts;
      Publications(acts[p..]) <= 1 && (Checks(acts[..p]) == [] ==> Publications(acts[p..]) == 0)
  {
    var acts := Refresh(plan, reg, number, s).acts;
    RefreshWatches(plan, reg, number, s);
    forall i | p <= i < |acts| && acts[i].Checked? ensures !acts[i].ok {
      CheckAt(acts, p, i);
      if acts[i].ok {
        NoBumpMeans(s.bumps, |Checks(acts[..i])| + 1, |Checks(acts[..p])|);
      }
    }
    AtMostOneAfterTrip(acts, p);
  }

  /** A re-read that is superseded before it starts publishes nothing. */
  lemma SupersededIsSilent(plan: Plan, reg: WriteRegister, number: nat, s: Scene)
    requires number > 0 && Count(s.accepted, reg.name) > number
    ensures Refresh(plan, reg, number, s).acts == [Checked(false)]
  {
  }

  /** The state topic only receives a trusted reading that this re-read made. */
  lemma SettledStateWasTrusted(plan: Plan, reg: WriteRegister, number: nat, s: Scene, i: nat)
    requires number > 0 && Count(s.accepted, reg.name) >= number
    requires i < |Refresh(plan, reg, number, s).acts| && Refresh(plan, reg, number, s).acts[i].StatePublished?
    ensures var acts := Refresh(plan, reg, number, s).acts;
      acts[i].topic == reg.topic && exists j :: 0 <= j < i && TrustedReading(plan, acts[j], reg.stateFrom, acts[i].text)
  {
    var acts := Refresh(plan, reg, number, s).acts;
    RefreshWatches(plan, reg, number, s);
    RefreshGoesOn(plan, reg, number, s);
    var j :| 0 <= j < i && IsReading(acts[j], reg.stateFrom, acts[i].text);
    GenuineIsTrusted(plan, WireOf(s.world), acts, j);
  }
}
