/**
 The pending loss summary of the audit logger: a count and a time window that grow under the loss
 mutex, are taken by the writer, and are merged back when the summary record cannot be written.
 Timestamps are Unix milliseconds; the count is unbounded here.
 */
module LossWindow {

  datatype Loss = Loss(count: nat, start: int, end: int)

  const NO_LOSS := Loss(0, 0, 0)

  /** One more loss. The end is overwritten, not maximised. */
  function Recorded(pending: Loss, timestamp: int): Loss {
    Loss(pending.count + 1, if pending.count == 0 then timestamp else pending.start, timestamp)
  }

  /** A snapshot that could not be written, merged back into what accumulated since. */
  function Restored(pending: Loss, snapshot: Loss): Loss {
    if snapshot.count == 0 then pending
    else if pending.count == 0 then snapshot
    else Loss(pending.count + snapshot.count,
              if snapshot.start < pending.start then snapshot.start else pending.start,
              if snapshot.end > pending.end then snapshot.end else pending.end)
  }

  predicate IsMin(x: int, log: seq<int>) {
    x in log && forall k :: 0 <= k < |log| ==> x <= log[k]
  }

  predicate IsMax(x: int, log: seq<int>) {
    x in log && forall k :: 0 <= k < |log| ==> log[k] <= x
  }

  predicate Monotone(log: seq<int>) {
    forall i, j :: 0 <= i <= j < |log| ==> log[i] <= log[j]
  }

  /** The summary counts exactly the losses of `log` and its window is exactly their span. */
  predicate Covers(loss: Loss, log: seq<int>) {
    && loss.count == |log|
    && (log != [] ==> IsMin(loss.start, log) && IsMax(loss.end, log))
  }

  lemma RecordedCovers(pending: Loss, log: seq<int>, timestamp: int)
    requires Covers(pending, log)
    requires Monotone(log + [timestamp])
    ensures Covers(Recorded(pending, timestamp), log + [timestamp])
  {
    var longer := log + [timestamp];
    assert longer[|log|] == timestamp;
    forall k | 0 <= k < |log|
      ensures longer[k] == log[k] && log[k] <= timestamp
    {
      assert longer[k] <= longer[|log|];
    }
    if log != [] {
      var k :| 0 <= k < |log| && log[k] == pending.start;
      assert longer[k] == pending.start;
    }
  }

  /** Merging keeps the window exact even when the two batches overlap in time. */
  lemma RestoredCovers(pending: Loss, later: seq<int>, snapshot: Loss, earlier: seq<int>)
    requires Covers(pending, later) && Covers(snapshot, earlier)
    ensures Covers(Restored(pending, snapshot), earlier + later)
  {
    var all := earlier + later;
    if earlier == [] {
      assert all == later;
    } else if later == [] {
      assert all == earlier;
    } else {
      var merged := Restored(pending, snapshot);
      assert forall x :: x in earlier || x in later ==> x in all;
      assert merged.start in all && merged.end in all;
    }
  }

  /** The merge itself, whatever the clock did: counts add up, and the window reaches from the earlier start
      to the later end of the two, each of which is one of theirs. */
  lemma RestoredShape(pending: Loss, snapshot: Loss)
    requires pending.count > 0 && snapshot.count > 0
    ensures var merged := Restored(pending, snapshot);
            && merged.count == pending.count + snapshot.count
            && merged.start <= pending.start && merged.start <= snapshot.start
            && merged.start in {pending.start, snapshot.start}
            && merged.end >= pending.end && merged.end >= snapshot.end
            && merged.end in {pending.end, snapshot.end}
  {
  }

  /** The summary of losses recorded one after another with no take in between. */
  function Batch(log: seq<int>): Loss {
    if log == [] then NO_LOSS else Recorded(Batch(log[..|log| - 1]), log[|log| - 1])
  }

  lemma {:induction false} BatchShape(log: seq<int>)
    requires log != []
    ensures Batch(log) == Loss(|log|, log[0], log[|log| - 1])
  {
    if |log| == 1 {
      assert log[..0] == [];
    } else {
      BatchShape(log[..|log| - 1]);
    }
  }

  /** The window of a batch is exact if and only if its first timestamp is the least and its last the greatest. */
  lemma BatchExactIff(log: seq<int>)
    requires log != []
    ensures Covers(Batch(log), log) <==>
            forall k :: 0 <= k < |log| ==> log[0] <= log[k] <= log[|log| - 1]
  {
    BatchShape(log);
    assert log[0] in log && log[|log| - 1] in log;
  }

  /** A batch ends before it starts, so that its duration is negative, if and only if its last loss is
      stamped before its first; what happened in between does not matter. */
  lemma BatchEndsBeforeStartIff(log: seq<int>)
    requires log != []
    ensures Batch(log).end < Batch(log).start <==> log[|log| - 1] < log[0]
  {
    BatchShape(log);
  }

  /** The least clock step that gives such a summary. */
  lemma ClockStepBackGivesNegativeDuration()
    ensures Batch([5, 3]) == Loss(2, 5, 3) && Batch([5, 3]).end < Batch([5, 3]).start
    ensures !Covers(Batch([5, 3]), [5, 3])
  {
    BatchShape([5, 3]);
    BatchExactIff([5, 3]);
    assert [5, 3][1] == 3;
  }
}
