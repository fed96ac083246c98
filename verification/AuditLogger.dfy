/**
 The audit logger's methods over its own fields, region by region. The ghost field `m` is the protocol
 state; every method proves that what it did to the fields is a sequence of protocol actions, so all
 guarantees about reachable protocol states hold of the fields. Between two regions any other
 goroutine may run: Interference stands for that.
 */
module AuditLogger {
  import opened Wrappers
  import opened LossWindow
  import opened AuditProtocol
  import opened AuditGuarantees

  lemma StartReachable(capacity: nat)
    requires capacity >= 1
    ensures Reachable(Start(capacity))
  {
    assert IsRun([Start(capacity)]);
  }

  /** What the writer may rely on: no other goroutine moves it, writes to the sink or handles an event, and
      losses recorded by others only add up. */
  lemma OthersKeepWriter(s: State, a: Action)
    requires Enabled(s, a) && !a.ByWriter?
    ensures var s' := Apply(s, a);
            && s'.writer == s.writer && s'.out == s.out && s'.handled == s.handled && s'.capacity == s.capacity
            && s.log <= s'.log && s.pending.count <= s'.pending.count && s.dropped <= s'.dropped
  {
    match a
    case ByCall(e, step) =>
      CallFrame(s, e, step);
      CallOnlyAddsLosses(s, e, step);
    case ByCloser(_, _) =>
  }

  lemma CallOnlyAddsLosses(s: State, e: Event, step: CallStep)
    requires CallEnabled(s, e, step)
    ensures var s' := ApplyCall(s, e, step);
            && s'.capacity == s.capacity
            && s.log <= s'.log && s.pending.count <= s'.pending.count && s.dropped <= s'.dropped
  {
  }

  /** What an enqueue call may rely on: no other goroutine moves it or takes its loss back. */
  lemma OthersKeepCall(s: State, a: Action, e: Event)
    requires Enabled(s, a) && e in s.calls && !(a.ByCall? && a.e == e)
    ensures e in Apply(s, a).calls && Apply(s, a).calls[e] == s.calls[e]
    ensures s.queueLost <= Apply(s, a).queueLost && s.log <= Apply(s, a).log
  {
    match a
    case ByCall(other, step) =>
      CallKeepsOthers(s, other, step, e);
      CallOnlyAddsLosses(s, other, step);
    case ByCloser(_, _) =>
    case ByWriter(step) =>
      WriterFrame(s, step);
      WriterLogGrows(s, step);
  }

  lemma CallKeepsOthers(s: State, other: Event, step: CallStep, e: Event)
    requires CallEnabled(s, other, step) && e in s.calls && other != e
    ensures var s' := ApplyCall(s, other, step);
            e in s'.calls && s'.calls[e] == s.calls[e] && s.queueLost <= s'.queueLost
  {
  }

  /** What the sink holds: loss summaries and records, in the order written. */
  datatype Entry = Summary(loss: Loss) | Entered(event: Event)

  function Shown(line: Line): Entry {
    match line
    case Gap(loss) => Summary(loss)
    case Record(event, _, _) => Entered(event)
  }

  function Sink(out: seq<Line>): seq<Entry> {
    seq(|out|, i requires 0 <= i < |out| => Shown(out[i]))
  }

  lemma SinkAppend(out: seq<Line>, line: Line)
    ensures Sink(out + [line]) == Sink(out) + [Shown(line)]
  {
  }

  /** What one pass over the summaries in the sink adds up to. */
  function SummaryTotal(sink: seq<Entry>): nat {
    if sink == [] then 0
    else SummaryTotal(sink[..|sink| - 1]) + (if sink[|sink| - 1].Summary? then sink[|sink| - 1].loss.count else 0)
  }

  lemma {:induction false} SummaryTotalIsGapTotal(out: seq<Line>)
    ensures SummaryTotal(Sink(out)) == GapTotal(out)
  {
    if out != [] {
      SummaryTotalIsGapTotal(out[..|out| - 1]);
      assert Sink(out)[..|out| - 1] == Sink(out[..|out| - 1]);
    }
  }

  /** In the logger's own fields, once the writer is done: the summaries in the sink and what is still
      pending account for everything dropped, except events that could not be serialised, which never
      reach a summary. */
  lemma SinkAccountsForDropped(l: Logger)
    requires l.Valid() && l.m.writer.Stopped?
    ensures l.pendingLoss.count + SummaryTotal(l.sink) + |l.m.unserialised| == l.dropped
    ensures l.pendingLoss.count > 0 <==> l.m.writer.failed
    ensures l.events == [] && l.eventsClosed
  {
    SummaryTotalIsGapTotal(l.m.out);
    LossesConserved(l.m);
    StoppedMeansDrained(l.m);
  }

  /** Handling one event appends it under exactly one outcome. */
  lemma OneOutcome(before: seq<Handled>, event: Event, outcome: Outcome)
    ensures var after := before + [Handled(event, outcome)];
            forall kind :: Of(after, kind) == Of(before, kind) + (if kind == outcome then [event] else [])
  {
    forall kind
      ensures Of(before + [Handled(event, outcome)], kind)
              == Of(before, kind) + (if kind == outcome then [event] else [])
    {
      OfAppend(before, Handled(event, outcome), kind);
    }
  }

  class Logger {
    const capacity: nat
    var events: seq<Event>
    var eventsClosed: bool
    var closed: bool
    var dropped: nat
    var pendingLoss: Loss
    var sink: seq<Entry>
    ghost var m: State

    ghost predicate Valid()
      reads this
    {
      && Reachable(m)
      && capacity == m.capacity
      && events == m.queue
      && eventsClosed == m.channelClosed
      && closed == m.closed
      && dropped == m.dropped
      && pendingLoss == m.pending
      && sink == Sink(m.out)
    }

    constructor (queueSize: nat)
      requires queueSize >= 1
      ensures Valid() && m == Start(queueSize)
    {
      capacity := queueSize;
      events, eventsClosed, closed, dropped, pendingLoss, sink := [], false, false, 0, NO_LOSS, [];
      m := Start(queueSize);
      new;
      StartReachable(queueSize);
    }

    /** Any number of steps of goroutines other than the writer. */
    method InterferenceWithWriter()
      requires Valid()
      modifies this
      ensures Valid()
      ensures m.writer == old(m.writer) && m.out == old(m.out) && m.handled == old(m.handled)
      ensures sink == old(sink) && old(m.log) <= m.log
      ensures old(pendingLoss.count) <= pendingLoss.count && old(dropped) <= dropped
    {
    }

    /** Any number of steps of goroutines other than enqueue call `e`. */
    method InterferenceWithCall(ghost e: Event)
      requires Valid() && e in m.calls
      modifies this
      ensures Valid() && e in m.calls && m.calls[e] == old(m.calls[e])
      ensures old(m.queueLost) <= m.queueLost && old(m.log) <= m.log
    {
    }

    method TakePendingLoss() returns (snapshot: Loss)
      requires Valid() && m.writer.Received?
      modifies this
      ensures Valid() && m == ApplyWriter(old(m), Take)
      ensures snapshot == old(pendingLoss) && pendingLoss == NO_LOSS && sink == old(sink)
    {
      ReachableStep(m, ByWriter(Take));
      m := ApplyWriter(m, Take);
      snapshot := pendingLoss;
      pendingLoss := NO_LOSS;
    }

    method RestorePendingLoss(snapshot: Loss)
      requires Valid() && m.writer.Restoring? && snapshot == m.writer.snapshot
      modifies this
      ensures Valid() && m == ApplyWriter(old(m), Restore)
      ensures pendingLoss.count == old(pendingLoss.count) + snapshot.count && sink == old(sink)
    {
      ReachableStep(m, ByWriter(Restore));
      m := ApplyWriter(m, Restore);
      if snapshot.count == 0 {
        return;
      }
      if pendingLoss.count == 0 {
        pendingLoss := snapshot;
        return;
      }
      pendingLoss := pendingLoss.(count := pendingLoss.count + snapshot.count);
      if snapshot.start < pendingLoss.start {
        pendingLoss := pendingLoss.(start := snapshot.start);
      }
      if snapshot.end > pendingLoss.end {
        pendingLoss := pendingLoss.(end := snapshot.end);
      }
    }

    /** The part of recordLoss under the loss mutex, for the writer or for enqueue call `caller`. */
    method RecordLoss(timestamp: int, ghost caller: Option<Event>)
      requires Valid()
      requires caller.Some? ==> CallEnabled(m, caller.value, CallStep.RecordQueueLoss(timestamp))
      requires caller.None? ==> WriterEnabled(m, RecordWriteLoss(timestamp))
      modifies this
      ensures Valid()
      ensures caller.Some? ==> m == ApplyCall(old(m), caller.value, CallStep.RecordQueueLoss(timestamp))
      ensures caller.None? ==> m == ApplyWriter(old(m), RecordWriteLoss(timestamp))
    {
      ghost var a := if caller.Some? then ByCall(caller.value, CallStep.RecordQueueLoss(timestamp))
                     else ByWriter(RecordWriteLoss(timestamp));
      ReachableStep(m, a);
      m := Apply(m, a);
      if pendingLoss.count == 0 {
        pendingLoss := pendingLoss.(start := timestamp);
      }
      pendingLoss := pendingLoss.(count := pendingLoss.count + 1);
      pendingLoss := pendingLoss.(end := timestamp);
    }

    /** Writes the pending summary, if there is one, ahead of what was received. */
    method EmitPendingLoss(gapWritten: bool)
      requires Valid() && m.writer.Received?
      modifies this
      ensures Valid() && m.writer.Delivering? && m.writer.next == old(m.writer.next)
      ensures m.handled == old(m.handled)
      ensures sink == old(sink) + (if old(pendingLoss.count) > 0 && gapWritten then [Summary(old(pendingLoss))] else [])
      ensures m.writer.failed <==> old(pendingLoss.count) > 0 && !gapWritten
    {
      var snapshot := TakePendingLoss();
      InterferenceWithWriter();
      var ok := WriteSummary(snapshot, gapWritten);
      if !ok {
        InterferenceWithWriter();
        RestorePendingLoss(snapshot);
      }
    }

    /** Encodes the summary to the sink unless there is nothing to summarise. */
    method WriteSummary(snapshot: Loss, gapWritten: bool) returns (ok: bool)
      requires Valid() && m.writer.Summarising? && m.writer.snapshot == snapshot
      modifies this`m, this`sink
      ensures Valid() && ok == (snapshot.count == 0 || gapWritten) && m.handled == old(m.handled)
      ensures if ok then m.writer == Delivering(old(m.writer.next), old(m.writer.seen), false)
              else m.writer == WriterPc.Restoring(old(m.writer.next), snapshot, old(m.writer.seen))
      ensures sink == old(sink) + (if snapshot.count > 0 && gapWritten then [Summary(snapshot)] else [])
    {
      ok := snapshot.count == 0 || gapWritten;
      SinkAppend(m.out, Gap(snapshot));
      ReachableStep(m, ByWriter(WriteGap(ok)));
      m := ApplyWriter(m, WriteGap(ok));
      if snapshot.count > 0 && gapWritten {
        sink := sink + [Summary(snapshot)];
      }
    }

    /** The ready receive at the head of the writer loop. */
    method ReceiveNext() returns (next: Option<Event>)
      requires Valid() && m.writer.Receiving? && (events != [] || eventsClosed)
      modifies this
      ensures Valid() && m == ApplyWriter(old(m), Receive) && sink == old(sink)
      ensures next == if old(events) != [] then Some(old(events)[0]) else None
      ensures m.writer == Received(next)
    {
      ReachableStep(m, ByWriter(Receive));
      m := ApplyWriter(m, Receive);
      next := None;
      if events != [] {
        next := Some(events[0]);
        events := events[1..];
      }
    }

    /** One turn of the writer loop, from a ready receive; false when the closed channel is empty. `taken` is
        the protocol state in which the pending losses were taken: nothing recorded before it is missing from
        the summary that goes ahead of the record. `handling` is the one in which the event is decoded: from
        there on a record that cannot be written is one more loss, recorded and counted, and an event that
        cannot be decoded is none. */
    method RunOnce(gapWritten: bool, decoded: bool, written: bool, timestamp: int)
      returns (running: bool, ghost taken: State, ghost handling: State)
      requires Valid() && m.writer.Receiving? && (events != [] || eventsClosed)
      modifies this
      ensures Valid()
      ensures running <==> old(events) != []
      ensures Reachable(taken) && taken.writer == Received(if running then Some(old(events)[0]) else None)
      ensures taken.out == old(m.out) && old(m.log) <= taken.log && old(pendingLoss.count) <= taken.pending.count
      ensures sink == old(sink)
                      + (if taken.pending.count > 0 && gapWritten then [Summary(taken.pending)] else [])
                      + (if running && decoded && written then [Entered(old(events)[0])] else [])
      ensures Reachable(handling) && handling.handled == old(m.handled)
      ensures running ==> m.writer.Receiving?
      ensures running && decoded && written ==>
                && m.handled == old(m.handled) + [Handled(old(events)[0], Written)]
                && m.log == handling.log && dropped == handling.dropped
      ensures running && decoded && !written ==>
                && m.handled == old(m.handled) + [Handled(old(events)[0], WriteFailed)]
                && |m.log| > |handling.log| && timestamp in m.log[|handling.log|..] && dropped > handling.dropped
      ensures running && !decoded ==>
                && m.handled == old(m.handled) + [Handled(old(events)[0], Undecodable)]
                && m.log == handling.log && dropped == handling.dropped
      ensures !running ==> m.writer == Stopped(taken.pending.count > 0 && !gapWritten) && m.handled == old(m.handled)
    {
      var next := ReceiveNext();
      InterferenceWithWriter();
      taken := m;
      EmitPendingLoss(gapWritten);
      InterferenceWithWriter();
      handling := m;
      running := next.Some?;
      if !running {
        Finish(None, Written);
      } else {
        HandleEvent(next.value, decoded, written, timestamp);
      }
    }

    /** The rest of the turn once an event is in hand and losses are summarised. Only a failed record write
        is a loss: at least the writer's own is then recorded and counted by the end of the turn. */
    method HandleEvent(event: Event, decoded: bool, written: bool, timestamp: int)
      requires Valid() && m.writer.Delivering? && m.writer.next == Some(event)
      modifies this
      ensures Valid() && m.writer.Receiving?
      ensures sink == old(sink) + (if decoded && written then [Entered(event)] else [])
      ensures decoded && written ==>
                && m.handled == old(m.handled) + [Handled(event, Written)]
                && Of(m.handled, Written) == Of(old(m.handled), Written) + [event]
                && Of(m.handled, WriteFailed) == Of(old(m.handled), WriteFailed)
      ensures decoded && !written ==>
                && m.handled == old(m.handled) + [Handled(event, WriteFailed)]
                && Of(m.handled, WriteFailed) == Of(old(m.handled), WriteFailed) + [event]
                && |m.log| > old(|m.log|) && timestamp in m.log[old(|m.log|)..] && dropped > old(dropped)
      ensures !decoded ==>
                && m.handled == old(m.handled) + [Handled(event, Undecodable)]
                && Of(m.handled, Undecodable) == Of(old(m.handled), Undecodable) + [event]
                && Of(m.handled, WriteFailed) == Of(old(m.handled), WriteFailed)
      ensures !decoded || written ==>
                m.log == old(m.log) && pendingLoss == old(pendingLoss) && dropped == old(dropped)
    {
      if !decoded {
        OneOutcome(m.handled, event, Undecodable);
        Finish(Some(event), Undecodable);
        return;
      }
      if !written {
        OneOutcome(m.handled, event, WriteFailed);
        Finish(Some(event), WriteFailed);
        LoseRecord(timestamp);
        return;
      }
      OneOutcome(m.handled, event, Written);
      Finish(Some(event), Written);
    }

    /** What follows a failed record write. */
    method LoseRecord(timestamp: int)
      requires Valid() && m.writer.Recording?
      modifies this
      ensures Valid() && m.writer.Receiving? && m.handled == old(m.handled) && sink == old(sink)
      ensures |m.log| > old(|m.log|) && timestamp in m.log[old(|m.log|)..] && dropped > old(dropped)
    {
      InterferenceWithWriter();
      ghost var n := |m.log|;
      CountWriteLoss(timestamp);
      assert m.log[n] == timestamp;
    }

    /** Decoding and writing the record itself touches only the sink. */
    method Finish(next: Option<Event>, outcome: Outcome)
      requires Valid() && WriterEnabled(m, Deliver(outcome)) && m.writer.next == next
      modifies this`m, this`sink
      ensures Valid() && m == ApplyDeliver(old(m), outcome)
      ensures sink == old(sink) + (if next.Some? && outcome.Written? then [Entered(next.value)] else [])
    {
      if next.Some? {
        SinkAppend(m.out, Record(next.value, m.writer.seen, m.writer.failed));
      }
      ReachableStep(m, ByWriter(Deliver(outcome)));
      m := ApplyDeliver(m, outcome);
      if next.Some? && outcome.Written? {
        sink := sink + [Entered(next.value)];
      }
    }

    /** recordLoss for a failed record write: the lock region, then the counter. */
    method CountWriteLoss(timestamp: int)
      requires Valid() && m.writer.Recording?
      modifies this
      ensures Valid() && m.writer.Receiving?
      ensures m.handled == old(m.handled) && m.out == old(m.out) && sink == old(sink)
      ensures old(m.log) + [timestamp] <= m.log && dropped > old(dropped)
    {
      RecordLoss(timestamp, None);
      InterferenceWithWriter();
      ReachableStep(m, ByWriter(BumpWriteLoss));
      m := ApplyWriter(m, BumpWriteLoss);
      dropped := dropped + 1;
    }

    /** The part of enqueue before the lock: an event that cannot be serialised is counted and goes no further. */
    method Serialise(e: Event, serialisable: bool)
      requires Valid() && At(m, e, Preparing)
      modifies this
      ensures Valid() && events == old(events) && pendingLoss == old(pendingLoss)
      ensures if serialisable then At(m, e, Waiting) && dropped == old(dropped)
              else At(m, e, Returned) && e in m.unserialised && dropped == old(dropped) + 1
    {
      if serialisable {
        ReachableStep(m, ByCall(e, Serialised));
        m := ApplyCall(m, e, Serialised);
        return;
      }
      ReachableStep(m, ByCall(e, CallStep.Unserialisable));
      m := ApplyCall(m, e, CallStep.Unserialisable);
      assert m.unserialised[|m.unserialised| - 1] == e;
      dropped := dropped + 1;
    }

    /** The body of enqueue under the state read lock. A closed logger rejects the event; otherwise it is
        accepted if the queue has room when the send is tried, in protocol state `sending`, and counted lost
        if it has none. The send never meets a closed channel although others run in between. */
    method EnqueueLocked(e: Event, timestamp: int) returns (ghost sending: State)
      requires Valid() && At(m, e, Locked)
      modifies this
      ensures Valid() && At(m, e, Leaving)
      ensures e in m.rejected || e in m.accepted || e in m.queueLost
      ensures old(closed) ==> m == ApplyCall(old(m), e, CheckClosed) && e in m.rejected
      ensures !old(closed) ==>
                && Reachable(sending) && At(sending, e, Sending)
                && if |sending.queue| < capacity then e in m.accepted
                   else e in m.queueLost && |m.log| > |sending.log| && timestamp in m.log[|sending.log|..]
    {
      ReachableStep(m, ByCall(e, CheckClosed));
      m := ApplyCall(m, e, CheckClosed);
      sending := m;
      if closed {
        assert m.rejected[|m.rejected| - 1] == e;
        return;
      }
      InterferenceWithCall(e);
      sending := m;
      SendOrLose(e, timestamp);
    }

    /** The select: a send that finds no room becomes a recorded and counted loss. */
    method SendOrLose(e: Event, timestamp: int)
      requires Valid() && At(m, e, Sending)
      modifies this
      ensures Valid() && At(m, e, Leaving)
      ensures if old(|events|) < capacity then e in m.accepted
              else e in m.queueLost && |m.log| > old(|m.log|) && timestamp in m.log[old(|m.log|)..]
    {
      var sent := TrySend(e);
      if !sent {
        InterferenceWithCall(e);
        ghost var n := |m.log|;
        RecordQueueLoss(e, timestamp);
        assert m.log[n] == timestamp;
      }
    }

    /** The select with a default: a full queue refuses, and the channel is never closed here. */
    method TrySend(e: Event) returns (sent: bool)
      requires Valid() && At(m, e, Sending)
      modifies this
      ensures Valid() && m == ApplyCall(old(m), e, Send) && !eventsClosed
      ensures (sent <==> |old(events)| < capacity) && m.log == old(m.log)
      ensures if sent then At(m, e, Leaving) && e in m.accepted && events == old(events) + [e]
              else At(m, e, CallPc.Losing) && events == old(events)
    {
      ReachableLock(m);
      ReachableStep(m, ByCall(e, Send));
      m := ApplyCall(m, e, Send);
      sent := |events| < capacity;
      if sent {
        events := events + [e];
        assert m.accepted[|m.accepted| - 1] == e;
      }
    }

    method RecordQueueLoss(e: Event, timestamp: int)
      requires Valid() && At(m, e, CallPc.Losing)
      modifies this
      ensures Valid() && At(m, e, Leaving) && e in m.queueLost && old(m.log) + [timestamp] <= m.log
    {
      RecordLoss(timestamp, Some(e));
      ghost var lost := m.queueLost;
      assert lost[|lost| - 1] == e;
      InterferenceWithCall(e);
      assert m.queueLost[|lost| - 1] == e;
      CountQueueLoss(e);
    }

    method CountQueueLoss(e: Event)
      requires Valid() && At(m, e, Bumping)
      modifies this
      ensures Valid() && At(m, e, Leaving) && dropped == old(dropped) + 1
      ensures m.queueLost == old(m.queueLost) && m.log == old(m.log)
    {
      ReachableStep(m, ByCall(e, BumpQueueLoss));
      m := ApplyCall(m, e, BumpQueueLoss);
      dropped := dropped + 1;
    }

    /** The sync.Once body between Lock and Unlock. */
    method CloseLocked(ghost closer: nat)
      requires Valid() && InBody(m, closer, Exclusive)
      modifies this
      ensures Valid() && closed && eventsClosed && InBody(m, closer, Shut)
      ensures events == old(events) && pendingLoss == old(pendingLoss) && dropped == old(dropped)
    {
      ReachableLock(m);
      ReachableStep(m, ByCloser(closer, Mark));
      m := ApplyClose(m, closer, Mark);
      closed := true;
      ReachableStep(m, ByCloser(closer, CloseChannel));
      m := ApplyClose(m, closer, CloseChannel);
      eventsClosed := true;
    }
  }
}
