/** What the entries of a cycle say. */
module ReadEntries {
  import opened Samples
  import opened ConfirmedRead

  /** The world in which the i-th register of a cycle is read. */
  function WorldAt(regs: seq<ReadRegister>, retries: nat, backoff: int, i: nat, w: World): World
    requires i < |regs|
  {
    if i == 0 then w.Checked()
    else WorldAt(regs[1..], retries, backoff, i - 1, ReadSingle(RuleOf(regs[0]), retries, backoff, w.Checked()).world)
  }

  /** A register that was not read again later under the same name. */
  ghost predicate LastOfItsName(regs: seq<ReadRegister>, i: nat) {
    i < |regs| && forall j :: i < j < |regs| ==> regs[j].name != regs[i].name
  }

  /** This entry says what this read returned. */
  predicate Reports(entry: RegisterValue, o: ReadOutcome) {
    && (entry.valid <==> o.Read?)
    && (entry.valid ==> entry.value == o.sample.text && entry.raw == o.sample.raw)
    && (!entry.valid ==> entry.value == "" && entry.raw == "")
  }

  lemma {:induction false} EntryStays(regs: seq<ReadRegister>, retries: nat, backoff: int, results: map<string, RegisterValue>, w: World, name: string)
    requires name in results && forall r :: r in regs ==> r.name != name
    ensures var c := ReadAllFrom(regs, retries, backoff, results, w); name in c.results && c.results[name] == results[name]
  {
    if regs != [] && !w.ctx.Done() {
      var r := ReadSingle(RuleOf(regs[0]), retries, backoff, w.Checked());
      if !r.outcome.ReadCancelled? {
        EntryStays(regs[1..], retries, backoff, results[regs[0].name := Recorded(r.outcome)], r.world, name);
      }
    }
  }

  /** The entries of an uncancelled cycle say what the reads returned, each made in the world that
      the read before it left. */
  lemma {:induction false} EntriesAreReads(regs: seq<ReadRegister>, retries: nat, backoff: int, results: map<string, RegisterValue>, w: World, i: nat)
    requires LastOfItsName(regs, i) && !ReadAllFrom(regs, retries, backoff, results, w).cancelled
    ensures var c := ReadAllFrom(regs, retries, backoff, results, w);
      && regs[i].name in c.results
      && Reports(c.results[regs[i].name], ReadSingle(RuleOf(regs[i]), retries, backoff, WorldAt(regs, retries, backoff, i, w)).outcome)
  {
    var r := ReadSingle(RuleOf(regs[0]), retries, backoff, w.Checked());
    var more := results[regs[0].name := Recorded(r.outcome)];
    if i > 0 {
      assert regs[1..][i - 1] == regs[i] && forall j :: i - 1 < j < |regs[1..]| ==> regs[1..][j] == regs[j + 1];
      EntriesAreReads(regs[1..], retries, backoff, more, r.world, i - 1);
    } else {
      assert forall q :: q in regs[1..] ==> q.name != regs[0].name;
      EntryStays(regs[1..], retries, backoff, more, r.world, regs[0].name);
    }
  }
}
