/** The record of commands in `internal/registers/writer.go` that tells a broker's redelivery
    from a command: `isDuplicate`, `rememberSent` and `forgetSent`, against the history of what
    was sent. */
module Dedupe {
  import opened Basics

  const WINDOW: int := 1000 * MS

  datatype LastWrite = LastWrite(value: string, at: int)

  /** A command that reached the wire, or one that was read back as refused or unconfirmed. */
  datatype Deed = Sent(topic: string, value: string, at: int) | Forgot(topic: string, value: string)

  predicate IsDuplicate(last: map<string, LastWrite>, topic: string, value: string, now: int) {
    topic in last && last[topic].value == value && now - last[topic].at < WINDOW
  }

  function Remember(last: map<string, LastWrite>, topic: string, value: string, at: int): map<string, LastWrite> {
    last[topic := LastWrite(value, at)]
  }

  function Forget(last: map<string, LastWrite>, topic: string, value: string): map<string, LastWrite> {
    if topic in last && last[topic].value == value then last - {topic} else last
  }

  function AfterDeed(last: map<string, LastWrite>, d: Deed): map<string, LastWrite> {
    match d
    case Sent(topic, value, at) => Remember(last, topic, value, at)
    case Forgot(topic, value) => Forget(last, topic, value)
  }

  /** The record after a history. */
  function Replay(history: seq<Deed>): map<string, LastWrite> {
    if history == [] then map[] else AfterDeed(Replay(history[..|history| - 1]), history[|history| - 1])
  }

  /** The i-th deed is the newest send on the topic, and was not forgotten. */
  ghost predicate NewestAt(history: seq<Deed>, topic: string, value: string, at: int, i: nat) {
    && i < |history| && history[i] == Sent(topic, value, at)
    && forall j :: i < j < |history| ==> history[j] != Forgot(topic, value) && !(history[j].Sent? && history[j].topic == topic)
  }

  ghost predicate Newest(history: seq<Deed>, topic: string, value: string, at: int) {
    exists i: nat :: NewestAt(history, topic, value, at, i)
  }

  /** Both sides of the next lemma change alike with one more deed. */
  lemma NewestGrows(history: seq<Deed>, d: Deed, topic: string, value: string, at: int)
    ensures Newest(history + [d], topic, value, at) <==>
              d == Sent(topic, value, at) ||
              (Newest(history, topic, value, at) && d != Forgot(topic, value) && !(d.Sent? && d.topic == topic))
  {
    var more, n := history + [d], |history|;
    assert more[n] == d && forall k :: 0 <= k < n ==> more[k] == history[k];
    if d == Sent(topic, value, at) {
      assert NewestAt(more, topic, value, at, n);
    }
    if i: nat :| NewestAt(history, topic, value, at, i) && d != Forgot(topic, value) && !(d.Sent? && d.topic == topic) {
      assert NewestAt(more, topic, value, at, i);
    }
    if i: nat :| NewestAt(more, topic, value, at, i) && d != Sent(topic, value, at) {
      assert i < n;
      assert more[n] == d;
      assert forall k :: i < k < n ==> history[k] == more[k];
      assert NewestAt(history, topic, value, at, i);
    }
  }

  /** What is on record for a topic is the newest command sent on it, unless that was forgotten. */
  lemma {:induction false} RecordIsNewest(history: seq<Deed>, topic: string, value: string, at: int)
    ensures (topic in Replay(history) && Replay(history)[topic] == LastWrite(value, at)) <==> Newest(history, topic, value, at)
  {
    if history != [] {
      var n := |history| - 1;
      RecordIsNewest(history[..n], topic, value, at);
      assert history == history[..n] + [history[n]];
      NewestGrows(history[..n], history[n], topic, value, at);
    }
  }

  /** A command is dropped if and only if the newest command sent on its topic had the same
      value less than one window ago and was not forgotten. */
  lemma DroppedIffRedelivered(history: seq<Deed>, topic: string, value: string, now: int)
    ensures IsDuplicate(Replay(history), topic, value, now) <==>
              exists at :: Newest(history, topic, value, at) && now - at < WINDOW
  {
    var last := Replay(history);
    if topic in last {
      RecordIsNewest(history, topic, last[topic].value, last[topic].at);
    }
    if at :| Newest(history, topic, value, at) && now - at < WINDOW {
      RecordIsNewest(history, topic, value, at);
    }
  }

  /** A change back to an earlier value is never dropped: once another value was sent, the
      earlier one goes through until it is sent again. */
  lemma {:induction false} ChangeBackIsSent(history: seq<Deed>, topic: string, value: string, other: string, i: nat, now: int)
    requires i < |history| && history[i].Sent? && history[i].topic == topic && history[i].value == other != value
    requires forall j :: i < j < |history| ==> !(history[j].Sent? && history[j].topic == topic && history[j].value == value)
    ensures !IsDuplicate(Replay(history), topic, value, now)
  {
    DroppedIffRedelivered(history, topic, value, now);
  }
}
