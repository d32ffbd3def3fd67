/** The log of publish calls, and what "at most once" means of it. */
module PublishLog {
  import opened PublicationFiles

  type Pid = nat

  datatype Call =
    | Started(pid: Pid, key: Key)
    | Ended(pid: Pid, key: Key, outcome: PublicationOutcome)

  predicate IsStart(call: Call, key: Key) {
    call.Started? && call.key == key
  }

  /** A publish call for `key` that ended rejected: nothing was delivered. */
  predicate IsRejection(call: Call, key: Key) {
    call.Ended? && call.key == key && call.outcome.NotDelivered?
  }

  /** A publish call for `key` that ended confirmed or undecided. */
  predicate IsDelivery(call: Call, key: Key) {
    call.Ended? && call.key == key && !call.outcome.NotDelivered?
  }

  /** How many publish calls for `key` have started and not been rejected: each may have delivered a reply. */
  function PossiblyDelivered(log: seq<Call>, key: Key): int {
    if log == [] then 0
    else
      var last := log[|log| - 1];
      PossiblyDelivered(log[..|log| - 1], key)
      + (if IsStart(last, key) then 1 else 0) - (if IsRejection(last, key) then 1 else 0)
  }

  function Deliveries(log: seq<Call>, key: Key): nat {
    if log == [] then 0
    else Deliveries(log[..|log| - 1], key) + if IsDelivery(log[|log| - 1], key) then 1 else 0
  }

  /** At no time are there two publish calls for `key` that may both have delivered a reply. */
  predicate AtMostOnce(log: seq<Call>, key: Key) {
    forall n :: 0 <= n <= |log| ==> PossiblyDelivered(log[..n], key) <= 1
  }

  /** Every call that ended had been started. */
  predicate EveryEndWasStarted(log: seq<Call>, key: Key) {
    forall n :: 0 <= n <= |log| ==> Deliveries(log[..n], key) <= PossiblyDelivered(log[..n], key)
  }

  lemma {:induction false} DeliveriesCount(log: seq<Call>, key: Key, i: nat)
    requires i < |log| && IsDelivery(log[i], key)
    ensures Deliveries(log, key) >= 1
  {
    if i < |log| - 1 {
      DeliveriesCount(log[..|log| - 1], key, i);
    }
  }

  /** Counting below two forbids what a reader fears: a second delivery, or a call started after a delivery. */
  lemma AtMostOnceMeans(log: seq<Call>, key: Key)
    requires AtMostOnce(log, key) && EveryEndWasStarted(log, key)
    ensures Deliveries(log, key) <= 1
    ensures forall i, j :: 0 <= i < j < |log| && IsDelivery(log[i], key) ==> !IsStart(log[j], key)
  {
    assert log[..|log|] == log;
    forall i, j | 0 <= i < j < |log| && IsDelivery(log[i], key)
      ensures !IsStart(log[j], key)
    {
      DeliveriesCount(log[..j], key, i);
      assert log[..j + 1][..j] == log[..j];
      assert PossiblyDelivered(log[..j], key) >= 1;
      assert PossiblyDelivered(log[..j + 1], key) <= 1;
    }
  }

  lemma PrefixesOfSnoc(log: seq<Call>, call: Call, key: Key)
    requires AtMostOnce(log, key)
    requires PossiblyDelivered(log + [call], key) <= 1
    ensures AtMostOnce(log + [call], key)
  {
    forall n | 0 <= n <= |log| + 1
      ensures PossiblyDelivered((log + [call])[..n], key) <= 1
    {
      if n <= |log| {
        assert (log + [call])[..n] == log[..n];
      } else {
        assert (log + [call])[..n] == log + [call];
      }
    }
  }

  lemma CountsOfSnoc(log: seq<Call>, call: Call, key: Key)
    ensures PossiblyDelivered(log + [call], key) == PossiblyDelivered(log, key)
      + (if IsStart(call, key) then 1 else 0) - (if IsRejection(call, key) then 1 else 0)
    ensures Deliveries(log + [call], key) == Deliveries(log, key) + if IsDelivery(call, key) then 1 else 0
  {
    assert (log + [call])[..|log|] == log;
  }

  /** Some publish call for the key was confirmed. */
  predicate Confirmed(log: seq<Call>, key: Key) {
    exists j :: 0 <= j < |log| && log[j].Ended? && log[j].key == key && log[j].outcome.Delivered?
  }

  lemma ConfirmedSnoc(log: seq<Call>, call: Call, key: Key)
    ensures Confirmed(log, key) ==> Confirmed(log + [call], key)
    ensures call.Ended? && call.key == key && call.outcome.Delivered? ==> Confirmed(log + [call], key)
  {
    if Confirmed(log, key) {
      var j :| 0 <= j < |log| && log[j].Ended? && log[j].key == key && log[j].outcome.Delivered?;
      assert (log + [call])[j] == log[j];
    }
    assert (log + [call])[|log|] == call;
  }
}
