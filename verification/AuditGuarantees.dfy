/**
 What the audit logger guarantees in every reachable state and over every run of the protocol.
 */
module AuditGuarantees {
  import opened Wrappers
  import opened LossWindow
  import opened AuditProtocol
  import SyncOnce

  // ----- Invariants hold over every run -----

  lemma InitInv(s: State)
    requires Init(s)
    ensures Inv(s)
  {
    forall e
      ensures Verdicts(s, e) == 0
    {
    }
  }

  /** The action behind one step of a run. */
  lemma RunStep(run: seq<State>, i: nat) returns (a: Action)
    requires IsRun(run) && i + 1 < |run|
    ensures Enabled(run[i], a) && run[i + 1] == Apply(run[i], a)
  {
    assert StepAt(run, i);
    a :| Enabled(run[i], a) && run[i + 1] == Apply(run[i], a);
  }

  lemma StepInv(s: State, s': State, a: Action)
    requires Inv(s) && Enabled(s, a) && s' == Apply(s, a)
    ensures Inv(s')
  {
    KeepsInv(s, a);
  }

  lemma {:induction false} RunInv(run: seq<State>, i: nat)
    requires IsRun(run) && i < |run|
    ensures Inv(run[i])
  {
    var s' := run[i];
    if i == 0 {
      InitInv(s');
    } else {
      var s := run[i - 1];
      RunInv(run, i - 1);
      var a := RunStep(run, i - 1);
      StepInv(s, s', a);
    }
  }

  lemma ReachableInv(s: State)
    requires Reachable(s)
    ensures Inv(s)
  {
    var run :| IsRun(run) && run[|run| - 1] == s;
    LastInv(run, s);
  }

  lemma LastInv(run: seq<State>, s: State)
    requires IsRun(run) && run[|run| - 1] == s
    ensures Inv(s)
  {
    RunInv(run, |run| - 1);
  }

  lemma ReachableStep(s: State, a: Action)
    requires Reachable(s) && Enabled(s, a)
    ensures Reachable(Apply(s, a))
  {
    var run :| IsRun(run) && run[|run| - 1] == s;
    var longer := run + [Apply(s, a)];
    assert Next(s, Apply(s, a));
    forall i | 0 <= i < |longer| - 1
      ensures StepAt(longer, i)
    {
      if i < |run| - 1 {
        assert StepAt(run, i);
      }
    }
    assert longer[|longer| - 1] == Apply(s, a);
  }

  lemma ReachableLock(s: State)
    requires Reachable(s)
    ensures LockInv(s)
  {
    ReachableInv(s);
  }

  lemma ReachableOrder(s: State)
    requires Reachable(s)
    ensures FifoInv(s) && SinkInv(s)
  {
    ReachableInv(s);
  }

  lemma ReachableVerdict(s: State)
    requires Reachable(s)
    ensures VerdictInv(s)
  {
    ReachableInv(s);
  }

  // ----- Conservation of losses -----

  /** A loss is pending, held by the writer, or in a written gap line: never dropped, never counted twice. */
  lemma LossesConserved(s: State)
    requires Reachable(s)
    ensures s.pending.count + Held(s.writer) + GapTotal(s.out) + (if s.writer.Recording? then 1 else 0)
            == |s.queueLost| + |Of(s.handled, WriteFailed)|
  {
    ReachableInv(s);
  }

  /** The dropped counter is exact except for additions in flight after an unlock. */
  lemma DroppedCounts(s: State)
    requires Reachable(s)
    ensures s.dropped + |BumpingCalls(s)| + (if s.writer.WriterBumping? || s.writer.Recording? then 1 else 0)
            == |s.queueLost| + |Of(s.handled, WriteFailed)| + |s.unserialised|
  {
    ReachableInv(s);
  }

  // ----- Shutdown -----

  lemma NeverPanics(s: State)
    requires Reachable(s)
    ensures !s.panicked
    ensures forall e :: CallEnabled(s, e, Send) ==> !s.channelClosed
    ensures forall closer :: CloseEnabled(s, closer, CloseChannel) ==> !s.channelClosed
  {
    ReachableLock(s);
  }

  lemma CallKeepsClosed(s: State, e: Event, step: CallStep)
    requires CallEnabled(s, e, step)
    ensures ApplyCall(s, e, step).channelClosed == s.channelClosed
  {
  }

  lemma WriterKeepsClosed(s: State, step: WriterStep)
    requires WriterEnabled(s, step)
    ensures ApplyWriter(s, step).channelClosed == s.channelClosed
  {
  }

  lemma StaysClosed(s: State, a: Action)
    requires Enabled(s, a) && s.channelClosed
    ensures Apply(s, a).channelClosed
  {
    match a
    case ByCall(e, step) => CallKeepsClosed(s, e, step);
    case ByCloser(_, _) =>
    case ByWriter(step) => WriterKeepsClosed(s, step);
  }

  lemma StepStaysClosed(run: seq<State>, i: nat)
    requires IsRun(run) && i + 1 < |run| && run[i].channelClosed
    ensures run[i + 1].channelClosed
  {
    var a := RunStep(run, i);
    StaysClosed(run[i], a);
  }

  lemma {:induction false} RunStaysClosed(run: seq<State>, i: nat, j: nat)
    requires IsRun(run) && i <= j < |run| && run[i].channelClosed
    ensures run[j].channelClosed
  {
    if i < j {
      RunStaysClosed(run, i, j - 1);
      StepStaysClosed(run, j - 1);
    }
  }

  /** The channel is closed at most once in a run, however many Close calls race. */
  lemma ChannelClosesOnce(run: seq<State>, i: nat, j: nat, closer: nat, other: nat)
    requires IsRun(run) && i + 1 <= j < |run|
    requires CloseEnabled(run[i], closer, CloseChannel) && run[i + 1] == ApplyClose(run[i], closer, CloseChannel)
    ensures run[i + 1].channelClosed
    ensures !CloseEnabled(run[j], other, CloseChannel)
  {
    RunInv(run, i);
    RunStaysClosed(run, i + 1, j);
    RunInv(run, j);
  }

  /** At most one Close call is ever in the body, and none gets past the sync.Once before the channel is
      closed. */
  lemma ClosersSeeClosedChannel(s: State, closer: nat, other: nat)
    requires Reachable(s)
    ensures SyncOnce.At(s.once, closer, SyncOnce.Past) ==> s.closed && s.channelClosed && s.body.Done?
    ensures SyncOnce.At(s.once, closer, SyncOnce.Running) && SyncOnce.At(s.once, other, SyncOnce.Running) ==>
              closer == other
  {
    ReachableLock(s);
    SyncOnce.BodyRunsOnce(s.once, closer, other);
  }

  /** Queue losses are recorded under the read lock, so none is recorded after the close. */
  lemma NoQueueLossAfterClose(s: State, a: Action)
    requires Reachable(s) && s.closed && Enabled(s, a)
    ensures Apply(s, a).queueLost == s.queueLost
    ensures Apply(s, a).accepted == s.accepted
  {
    ReachableLock(s);
    match a
    case ByCall(e, step) => ClosedCallIsHarmless(s, e, step);
    case ByCloser(_, _) =>
    case ByWriter(step) => WriterFrame(s, step);
  }

  lemma ClosedCallIsHarmless(s: State, e: Event, step: CallStep)
    requires LockInv(s) && s.closed && CallEnabled(s, e, step)
    ensures ApplyCall(s, e, step).queueLost == s.queueLost
    ensures ApplyCall(s, e, step).accepted == s.accepted
  {
  }

  /** Once the writer is done, everything accepted was handled and the books are closed. */
  lemma StoppedMeansDrained(s: State)
    requires Reachable(s) && s.writer.Stopped?
    ensures s.channelClosed && s.queue == []
    ensures s.accepted == Ids(s.handled)
    ensures s.writer.failed <==> s.pending.count > 0
    ensures !s.writer.failed <==> GapTotal(s.out) == |s.queueLost| + |Of(s.handled, WriteFailed)|
    ensures s.dropped == |s.queueLost| + |Of(s.handled, WriteFailed)| + |s.unserialised|
  {
    ReachableInv(s);
    assert BumpingCalls(s) == {};
  }

  /** Steps the writer can still take once the channel is closed. */
  function DrainMeasure(s: State): nat {
    8 * |s.queue| +
    match s.writer
    case Receiving => 7
    case Received(next) => if next.Some? then 14 else 6
    case Summarising(next, _, _) => if next.Some? then 13 else 5
    case Restoring(next, _, _) => if next.Some? then 12 else 4
    case Delivering(next, _, _) => if next.Some? then 11 else 3
    case Recording => 10
    case WriterBumping => 9
    case Stopped(_) => 0
  }

  /** After the close the writer always has a step until it is done, each step brings it closer, and
      no other goroutine can delay it. */
  lemma DrainProgresses(s: State, a: Action)
    requires Reachable(s) && s.channelClosed && Enabled(s, a)
    ensures if a.ByWriter? then DrainMeasure(Apply(s, a)) < DrainMeasure(s)
            else DrainMeasure(Apply(s, a)) <= DrainMeasure(s)
  {
    ReachableLock(s);
    match a
    case ByCall(e, step) => CallCannotDelayDrain(s, e, step);
    case ByCloser(_, _) =>
    case ByWriter(step) => WriterDrains(s, step);
  }

  lemma CallCannotDelayDrain(s: State, e: Event, step: CallStep)
    requires LockInv(s) && s.channelClosed && CallEnabled(s, e, step)
    ensures DrainMeasure(ApplyCall(s, e, step)) == DrainMeasure(s)
  {
    CallFrame(s, e, step);
    assert ApplyCall(s, e, step).queue == s.queue;
  }

  lemma WriterDrains(s: State, step: WriterStep)
    requires s.channelClosed && WriterEnabled(s, step)
    ensures DrainMeasure(ApplyWriter(s, step)) < DrainMeasure(s)
  {
    assert !step.Receive? ==> ApplyWriter(s, step).queue == s.queue;
  }

  lemma WriterNeverStuck(s: State)
    requires s.channelClosed && !s.writer.Stopped?
    ensures exists step :: WriterEnabled(s, step)
  {
    var step :=
      match s.writer
      case Receiving => Receive
      case Received(_) => Take
      case Summarising(_, _, _) => WriteGap(true)
      case Restoring(_, _, _) => Restore
      case Delivering(_, _, _) => Deliver(Written)
      case Recording => RecordWriteLoss(0)
      case WriterBumping => BumpWriteLoss
      case Stopped(_) => Receive;
    assert WriterEnabled(s, step);
  }

  // ----- No deadlock -----

  /** An enqueue call or a Close call that is on its way. */
  predicate Unfinished(s: State, a: Action) {
    match a
    case ByCall(e, _) => e in s.calls && !s.calls[e].Returned?
    case ByCloser(closer, _) => closer in s.once.callers && !s.once.callers[closer].Past?
    case ByWriter(_) => false
  }

  function NextCallStep(pc: CallPc): CallStep {
    match pc
    case Preparing => Serialised
    case Waiting => ReadLock
    case Locked => CheckClosed
    case Sending => Send
    case Losing => RecordQueueLoss(0)
    case Bumping => BumpQueueLoss
    case Leaving => ReadUnlock
    case Returned => Call
  }

  function NextCloseStep(s: State, pc: SyncOnce.Pc): CloseStep {
    match pc
    case Calling => OnceStep(SyncOnce.Acquire)
    case Holding => OnceStep(if s.once.done then SyncOnce.SeeDone else SyncOnce.Begin)
    case Running =>
      (match s.body
       case Acquiring => CloseStep.Lock
       case Exclusive => Mark
       case Marked => CloseChannel
       case Shut => Unlock
       case _ => OnceStep(SyncOnce.Finish))
    case _ => OnceStep(SyncOnce.Release)
  }

  /** A call that does not wait for the lock can take its next step. */
  lemma CallCanStep(s: State, e: Event)
    requires e in s.calls && !s.calls[e].Returned? && (s.calls[e].Waiting? ==> !WriteLocked(s))
    ensures CallEnabled(s, e, NextCallStep(s.calls[e]))
  {
  }

  /** The closer that owns the mutex of the Once can take its next step unless a reader is in its way. */
  lemma OwnerCanStep(s: State)
    requires LockInv(s) && s.once.holder.Some?
    requires forall e :: e in s.calls ==> !HoldsReadLock(s.calls[e])
    ensures var c := s.once.holder.value;
            && c in s.once.callers
            && CloseEnabled(s, c, NextCloseStep(s, s.once.callers[c])) && !s.once.callers[c].Past?
  {
  }

  /** The locks cannot deadlock: as long as some enqueue or Close call is on its way, one of those can take a
      step, whatever the writer does. */
  lemma NoDeadlock(s: State, unfinished: Action)
    requires Reachable(s) && Unfinished(s, unfinished)
    ensures exists a :: Enabled(s, a) && Unfinished(s, a)
  {
    ReachableLock(s);
    if e :| e in s.calls && !s.calls[e].Returned? && !s.calls[e].Waiting? {
      CallCanStep(s, e);
      var a := ByCall(e, NextCallStep(s.calls[e]));
      assert Enabled(s, a) && Unfinished(s, a);
    } else if s.once.holder.Some? {
      OwnerCanStep(s);
      var c := s.once.holder.value;
      var a := ByCloser(c, NextCloseStep(s, s.once.callers[c]));
      assert Enabled(s, a) && Unfinished(s, a);
    } else {
      FreeOnceMeansUnlocked(s);
      var a := if unfinished.ByCall? then ByCall(unfinished.e, ReadLock)
               else ByCloser(unfinished.closer, OnceStep(SyncOnce.Acquire));
      assert Enabled(s, a) && Unfinished(s, a);
    }
  }

  lemma FreeOnceMeansUnlocked(s: State)
    requires LockInv(s) && s.once.holder.None?
    ensures !WriteLocked(s)
    ensures forall c :: c in s.once.callers && !s.once.callers[c].Past? ==> s.once.callers[c].Calling?
  {
  }

  // ----- How long the drain takes -----

  /** The actions can be taken from `s`, one after another. */
  ghost predicate Follows(s: State, actions: seq<Action>)
    decreases |actions|
  {
    actions == [] || (Enabled(s, actions[0]) && Follows(Apply(s, actions[0]), actions[1..]))
  }

  ghost function After(s: State, actions: seq<Action>): State
    requires Follows(s, actions)
    decreases |actions|
  {
    if actions == [] then s else After(Apply(s, actions[0]), actions[1..])
  }

  function WriterSteps(actions: seq<Action>): nat {
    if actions == [] then 0 else (if actions[0].ByWriter? then 1 else 0) + WriterSteps(actions[1..])
  }

  /** From a closed channel on, however the goroutines interleave, the writer takes at most DrainMeasure(s)
      more steps, and having taken that many it is done. */
  lemma {:induction false} DrainIsBounded(s: State, actions: seq<Action>)
    requires Reachable(s) && s.channelClosed && Follows(s, actions)
    ensures WriterSteps(actions) + DrainMeasure(After(s, actions)) <= DrainMeasure(s)
    ensures WriterSteps(actions) == DrainMeasure(s) ==> After(s, actions).writer.Stopped?
    decreases |actions|
  {
    if actions != [] {
      var a := actions[0];
      DrainProgresses(s, a);
      StaysClosed(s, a);
      ReachableStep(s, a);
      DrainIsBounded(Apply(s, a), actions[1..]);
    }
  }

  // ----- Ledger and order -----

  lemma {:induction false} OutcomesPartition(handled: seq<Handled>, e: Event)
    ensures Times(Ids(handled), e)
            == Times(Of(handled, Written), e) + Times(Of(handled, Undecodable), e) + Times(Of(handled, WriteFailed), e)
  {
    if handled != [] {
      var init, last := handled[..|handled| - 1], handled[|handled| - 1];
      assert handled == init + [last];
      OutcomesPartition(init, e);
      OneMoreId(init, last, e);
      OneMoreOf(init, last, Written, e);
      OneMoreOf(init, last, Undecodable, e);
      OneMoreOf(init, last, WriteFailed, e);
    }
  }

  function Times(xs: seq<Event>, e: Event): nat {
    multiset(xs)[e]
  }

  lemma TimesAppend(xs: seq<Event>, x: Event, e: Event)
    ensures Times(xs + [x], e) == Times(xs, e) + (if x == e then 1 else 0)
  {
    CountAppend(xs, x, e);
  }

  lemma OneMoreOf(init: seq<Handled>, last: Handled, outcome: Outcome, e: Event)
    ensures Times(Of(init + [last], outcome), e)
            == Times(Of(init, outcome), e) + (if last == Handled(e, outcome) then 1 else 0)
  {
    OfAppend(init, last, outcome);
    if last.outcome == outcome {
      TimesAppend(Of(init, outcome), last.event, e);
    } else {
      assert Of(init + [last], outcome) == Of(init, outcome);
    }
  }

  lemma OneMoreId(init: seq<Handled>, last: Handled, e: Event)
    ensures Times(Ids(init + [last]), e) == Times(Ids(init), e) + (if last.event == e then 1 else 0)
  {
    assert Ids(init + [last]) == Ids(init) + [last.event];
    TimesAppend(Ids(init), last.event, e);
  }

  lemma CountConcat(xs: seq<Event>, ys: seq<Event>, zs: seq<Event>, e: Event)
    ensures multiset(xs + ys + zs)[e] == multiset(xs)[e] + multiset(ys)[e] + multiset(zs)[e]
  {
    assert multiset(xs + ys + zs) == multiset(xs + ys) + multiset(zs);
  }

  /** Every event ever given to enqueue is in exactly one of the nine places, and no other event is anywhere. */
  lemma ExactlyOnePlace(s: State, e: Event)
    requires Reachable(s)
    ensures Places(s, e) == if e in s.calls then 1 else 0
  {
    ReachableOrder(s);
    ReachableVerdict(s);
    assert Verdicts(s, e) == if e in s.calls then 1 else 0;
    OutcomesPartition(s.handled, e);
    CountConcat(Ids(s.handled), Hand(s.writer), s.queue, e);
  }

  /** xs is ys with some elements left out, order kept. */
  ghost predicate Subsequence(xs: seq<Event>, ys: seq<Event>) {
    exists at: seq<nat> :: Selects(at, xs, ys)
  }

  ghost predicate Selects(at: seq<nat>, xs: seq<Event>, ys: seq<Event>) {
    && |at| == |xs|
    && (forall k :: 0 <= k < |at| ==> at[k] < |ys| && ys[at[k]] == xs[k])
    && (forall j, k :: 0 <= j < k < |at| ==> at[j] < at[k])
  }

  lemma {:induction false} OfSelects(handled: seq<Handled>, outcome: Outcome) returns (at: seq<nat>)
    ensures Selects(at, Of(handled, outcome), Ids(handled))
  {
    if handled == [] {
      at := [];
    } else {
      var n := |handled| - 1;
      at := OfSelects(handled[..n], outcome);
      assert forall k :: 0 <= k < n ==> Ids(handled)[k] == Ids(handled[..n])[k];
      if handled[n].outcome == outcome {
        at := at + [n];
      }
    }
  }

  /** Records reach the sink in the order their events were accepted. */
  lemma WrittenInAcceptedOrder(s: State)
    requires Reachable(s)
    ensures Ids(s.handled) <= s.accepted
    ensures Records(s.out) == Of(s.handled, Written)
    ensures Subsequence(Records(s.out), s.accepted)
  {
    ReachableOrder(s);
    AcceptedOrder(s);
  }

  lemma AcceptedOrder(s: State)
    requires FifoInv(s) && SinkInv(s)
    ensures Ids(s.handled) <= s.accepted
    ensures Subsequence(Records(s.out), s.accepted)
  {
    var ids, rest := Ids(s.handled), Hand(s.writer) + s.queue;
    assert s.accepted == ids + rest;
    var at := OfSelects(s.handled, Written);
    SelectsLonger(at, Of(s.handled, Written), ids, rest);
  }

  lemma SelectsLonger(at: seq<nat>, xs: seq<Event>, ys: seq<Event>, rest: seq<Event>)
    requires Selects(at, xs, ys)
    ensures Selects(at, xs, ys + rest)
  {
  }

  /** The losses a record's writer saw at its take are all in earlier gap lines, unless that summary failed. */
  lemma LossesReportedBeforeRecord(s: State, i: nat)
    requires Reachable(s) && i < |s.out| && s.out[i].Record?
    ensures s.out[i].failed <==> GapTotal(s.out[..i]) < s.out[i].seen
    ensures !s.out[i].failed <==> GapTotal(s.out[..i]) == s.out[i].seen
    ensures s.out[i].seen <= |s.log|
  {
    ReachableInv(s);
    var run :| IsRun(run) && run[|run| - 1] == s;
    SeenBounded(run, |run| - 1);
  }

  ghost predicate SeenInLog(s: State) {
    && (s.writer.Summarising? || s.writer.Restoring? || s.writer.Delivering? ==> s.writer.seen <= |s.log|)
    && forall i :: 0 <= i < |s.out| && s.out[i].Record? ==> s.out[i].seen <= |s.log|
  }

  lemma CallKeepsSeenInLog(s: State, e: Event, step: CallStep)
    requires SeenInLog(s) && CallEnabled(s, e, step)
    ensures SeenInLog(ApplyCall(s, e, step))
  {
    CallFrame(s, e, step);
    assert |s.log| <= |ApplyCall(s, e, step).log|;
  }

  lemma WriterKeepsSeenInLog(s: State, step: WriterStep)
    requires SeenInLog(s) && WriterEnabled(s, step)
    ensures SeenInLog(ApplyWriter(s, step))
  {
    if step.Deliver? {
      assert ApplyDeliver(s, step.outcome).log == s.log;
    }
  }

  lemma KeepsSeenInLog(s: State, a: Action)
    requires SeenInLog(s) && Enabled(s, a)
    ensures SeenInLog(Apply(s, a))
  {
    match a
    case ByCall(e, step) => CallKeepsSeenInLog(s, e, step);
    case ByCloser(_, _) =>
    case ByWriter(step) => WriterKeepsSeenInLog(s, step);
  }

  lemma {:induction false} SeenBounded(run: seq<State>, i: nat)
    requires IsRun(run) && i < |run|
    ensures SeenInLog(run[i])
  {
    if i > 0 {
      SeenBounded(run, i - 1);
      var a := RunStep(run, i - 1);
      KeepsSeenInLog(run[i - 1], a);
    }
  }

  // ----- Loss windows -----

  /** The segment of the loss log that gap line `i` accounts for. */
  ghost predicate GapCovers(out: seq<Line>, log: seq<int>, i: nat)
    requires i < |out| && out[i].Gap?
  {
    var from := GapTotal(out[..i]);
    var to := from + out[i].loss.count;
    to <= |log| && out[i].loss.count > 0 && Covers(out[i].loss, log[from..to])
  }

  ghost predicate GapsCover(out: seq<Line>, log: seq<int>) {
    forall i :: 0 <= i < |out| && out[i].Gap? ==> GapCovers(out, log, i)
  }

  /** The pending and the held summary span the losses not yet in a gap line. */
  ghost predicate SpanInv(s: State) {
    var from := GapTotal(s.out);
    var mid := from + Held(s.writer);
    && mid <= |s.log|
    && Covers(s.pending, s.log[mid..])
    && (s.writer.Summarising? || s.writer.Restoring? ==> Covers(s.writer.snapshot, s.log[from..mid]))
  }

  ghost predicate WindowInv(s: State) {
    SpanInv(s) && GapsCover(s.out, s.log)
  }

  lemma GapsCoverLonger(out: seq<Line>, log: seq<int>, timestamp: int)
    requires GapsCover(out, log)
    ensures GapsCover(out, log + [timestamp])
  {
    forall i | 0 <= i < |out| && out[i].Gap?
      ensures GapCovers(out, log + [timestamp], i)
    {
      assert GapCovers(out, log, i);
      var from := GapTotal(out[..i]);
      var to := from + out[i].loss.count;
      assert (log + [timestamp])[from..to] == log[from..to];
    }
  }

  lemma GapsCoverAppend(out: seq<Line>, log: seq<int>, line: Line)
    requires GapsCover(out, log)
    requires line.Gap? ==> GapCovers(out + [line], log, |out|)
    ensures GapsCover(out + [line], log)
  {
    var longer := out + [line];
    forall i | 0 <= i < |longer| && longer[i].Gap?
      ensures GapCovers(longer, log, i)
    {
      if i < |out| {
        assert GapCovers(out, log, i);
        assert longer[..i] == out[..i];
      }
    }
  }

  /** Recording one more loss. */
  lemma RecordKeepsWindow(s: State, s': State, timestamp: int)
    requires WindowInv(s) && Monotone(s.log + [timestamp])
    requires s'.pending == Recorded(s.pending, timestamp) && s'.log == s.log + [timestamp]
    requires s'.out == s.out && Held(s'.writer) == Held(s.writer)
    requires s'.writer.Summarising? || s'.writer.Restoring? ==> s'.writer == s.writer
    ensures WindowInv(s')
  {
    RecordKeepsSpan(s, s', timestamp);
    GapsCoverLonger(s.out, s.log, timestamp);
  }

  lemma PrefixSlice(log: seq<int>, from: nat, mid: nat, timestamp: int)
    requires from <= mid <= |log|
    ensures (log + [timestamp])[from..mid] == log[from..mid]
  {
  }

  lemma RecordKeepsSpan(s: State, s': State, timestamp: int)
    requires SpanInv(s) && Monotone(s.log + [timestamp])
    requires s'.pending == Recorded(s.pending, timestamp) && s'.log == s.log + [timestamp]
    requires s'.out == s.out && Held(s'.writer) == Held(s.writer)
    requires s'.writer.Summarising? || s'.writer.Restoring? ==> s'.writer == s.writer
    ensures SpanInv(s')
  {
    var from := GapTotal(s.out);
    var mid := from + Held(s.writer);
    PrefixSlice(s.log, from, mid, timestamp);
    RecordCoversTail(s.pending, s.log, mid, timestamp);
  }

  lemma RecordCoversTail(pending: Loss, log: seq<int>, mid: nat, timestamp: int)
    requires mid <= |log| && Covers(pending, log[mid..]) && Monotone(log + [timestamp])
    ensures Covers(Recorded(pending, timestamp), (log + [timestamp])[mid..])
  {
    var longer := log + [timestamp];
    assert longer[mid..] == log[mid..] + [timestamp];
    forall i, j | 0 <= i <= j < |longer[mid..]|
      ensures longer[mid..][i] <= longer[mid..][j]
    {
      assert longer[mid + i] <= longer[mid + j];
    }
    RecordedCovers(pending, log[mid..], timestamp);
  }

  /** The span of the pending losses starts where the gap lines and the held summary end. */
  lemma SpanFrame(s: State, s': State)
    requires SpanInv(s)
    requires s'.pending == s.pending && s'.log == s.log
    requires GapTotal(s'.out) + Held(s'.writer) == GapTotal(s.out) + Held(s.writer)
    requires s'.writer.Summarising? || s'.writer.Restoring? ==>
               && GapTotal(s'.out) == GapTotal(s.out)
               && (s.writer.Summarising? || s.writer.Restoring?) && s'.writer.snapshot == s.writer.snapshot
    ensures SpanInv(s')
  {
  }

  lemma WriteGapFrame(s: State, ok: bool)
    requires WriterEnabled(s, WriteGap(ok))
    ensures var s' := ApplyWriter(s, WriteGap(ok));
            && s'.pending == s.pending && s'.log == s.log
            && (if ok then s'.writer.Delivering? else s'.writer.Restoring? && s'.writer.snapshot == s.writer.snapshot)
  {
  }

  lemma WriteGapKeepsSpan(s: State, ok: bool)
    requires SpanInv(s) && WriterEnabled(s, WriteGap(ok))
    ensures SpanInv(ApplyWriter(s, WriteGap(ok)))
  {
    WriteGapEffect(s, ok);
    WriteGapFrame(s, ok);
    SpanFrame(s, ApplyWriter(s, WriteGap(ok)));
  }

  lemma WriteGapKeepsGaps(s: State, ok: bool)
    requires SpanInv(s) && GapsCover(s.out, s.log) && WriterEnabled(s, WriteGap(ok))
    ensures GapsCover(ApplyWriter(s, WriteGap(ok)).out, s.log)
  {
    if ok && s.writer.snapshot.count > 0 {
      assert (s.out + [Gap(s.writer.snapshot)])[..|s.out|] == s.out;
      GapsCoverAppend(s.out, s.log, Gap(s.writer.snapshot));
    }
  }

  lemma TakeKeepsSpan(s: State)
    requires SpanInv(s) && WriterEnabled(s, Take)
    ensures SpanInv(ApplyWriter(s, Take))
  {
    var from := GapTotal(s.out);
    assert from + s.pending.count == |s.log|;
    assert s.log[from..|s.log|] == s.log[from..];
    assert s.log[|s.log|..] == [];
  }

  lemma SuffixSplits(log: seq<int>, from: nat, mid: nat)
    requires from <= mid <= |log|
    ensures log[from..] == log[from..mid] + log[mid..]
  {
  }

  lemma RestoreFrame(s: State)
    requires WriterEnabled(s, Restore)
    ensures var s' := ApplyWriter(s, Restore);
            && s'.pending == Restored(s.pending, s.writer.snapshot)
            && s'.log == s.log && s'.out == s.out && s'.writer.Delivering?
  {
  }

  lemma RestoreKeepsSpan(s: State)
    requires SpanInv(s) && WriterEnabled(s, Restore)
    ensures SpanInv(ApplyWriter(s, Restore))
  {
    var from := GapTotal(s.out);
    var mid := from + Held(s.writer);
    RestoredCovers(s.pending, s.log[mid..], s.writer.snapshot, s.log[from..mid]);
    SuffixSplits(s.log, from, mid);
    RestoreFrame(s);
  }

  lemma DeliverSpanFrame(s: State, outcome: Outcome)
    requires WriterEnabled(s, Deliver(outcome))
    ensures var s' := ApplyDeliver(s, outcome);
            s'.pending == s.pending && s'.log == s.log && GapTotal(s'.out) == GapTotal(s.out)
            && !s'.writer.Summarising? && !s'.writer.Restoring?
  {
    if s.writer.next.Some? {
      DeliverWrites(s, outcome);
    }
  }

  lemma DeliverKeepsSpan(s: State, outcome: Outcome)
    requires SpanInv(s) && WriterEnabled(s, Deliver(outcome))
    ensures SpanInv(ApplyDeliver(s, outcome))
  {
    DeliverSpanFrame(s, outcome);
    SpanFrame(s, ApplyDeliver(s, outcome));
  }

  lemma DeliverKeepsGaps(s: State, outcome: Outcome)
    requires GapsCover(s.out, s.log) && WriterEnabled(s, Deliver(outcome))
    ensures GapsCover(ApplyDeliver(s, outcome).out, s.log)
  {
    if s.writer.next.Some? && outcome.Written? {
      GapsCoverAppend(s.out, s.log, Record(s.writer.next.value, s.writer.seen, s.writer.failed));
    }
  }

  lemma WindowFrame(s: State, s': State)
    requires WindowInv(s)
    requires s'.pending == s.pending && s'.log == s.log && s'.out == s.out
    requires s'.writer == s.writer
             || (Held(s.writer) == 0 && !s'.writer.Summarising? && !s'.writer.Restoring?)
    ensures WindowInv(s')
  {
  }

  lemma CallKeepsWindow(s: State, e: Event, step: CallStep)
    requires WindowInv(s) && CallEnabled(s, e, step) && Monotone(ApplyCall(s, e, step).log)
    ensures WindowInv(ApplyCall(s, e, step))
  {
    CallFrame(s, e, step);
    if step.RecordQueueLoss? {
      RecordKeepsWindow(s, ApplyCall(s, e, step), step.timestamp);
    } else {
      WindowFrame(s, ApplyCall(s, e, step));
    }
  }

  lemma WriteGapKeepsWindow(s: State, ok: bool)
    requires WindowInv(s) && WriterEnabled(s, WriteGap(ok))
    ensures WindowInv(ApplyWriter(s, WriteGap(ok)))
  {
    WriteGapKeepsSpan(s, ok);
    WriteGapKeepsGaps(s, ok);
    WriteGapFrame(s, ok);
  }

  lemma DeliverKeepsWindow(s: State, outcome: Outcome)
    requires WindowInv(s) && WriterEnabled(s, Deliver(outcome))
    ensures WindowInv(ApplyDeliver(s, outcome))
  {
    DeliverKeepsSpan(s, outcome);
    DeliverKeepsGaps(s, outcome);
    DeliverSpanFrame(s, outcome);
  }

  lemma WriterKeepsWindow(s: State, step: WriterStep)
    requires WindowInv(s) && WriterEnabled(s, step) && Monotone(ApplyWriter(s, step).log)
    ensures WindowInv(ApplyWriter(s, step))
  {
    match step
    case Take => TakeKeepsSpan(s);
    case WriteGap(ok) => WriteGapKeepsWindow(s, ok);
    case Restore => RestoreKeepsSpan(s);
    case Deliver(outcome) => DeliverKeepsWindow(s, outcome);
    case RecordWriteLoss(timestamp) => RecordKeepsWindow(s, ApplyWriter(s, step), timestamp);
    case Receive => WindowFrame(s, ApplyWriter(s, Receive));
    case BumpWriteLoss => WindowFrame(s, ApplyWriter(s, BumpWriteLoss));
  }

  lemma CloseKeepsWindow(s: State, closer: nat, step: CloseStep)
    requires WindowInv(s) && CloseEnabled(s, closer, step)
    ensures WindowInv(ApplyClose(s, closer, step))
  {
    WindowFrame(s, ApplyClose(s, closer, step));
  }

  lemma KeepsWindow(s: State, a: Action, s': State)
    requires WindowInv(s) && Enabled(s, a) && s' == Apply(s, a) && Monotone(s'.log)
    ensures WindowInv(s')
  {
    match a
    case ByCall(e, step) => CallKeepsWindow(s, e, step);
    case ByCloser(closer, step) => CloseKeepsWindow(s, closer, step);
    case ByWriter(step) => WriterKeepsWindow(s, step);
  }

  /** What one step can do to the loss log. */
  ghost predicate Extends(log: seq<int>, longer: seq<int>) {
    longer == log || (|longer| == |log| + 1 && longer[..|log|] == log)
  }

  lemma CallLogGrows(s: State, e: Event, step: CallStep)
    requires CallEnabled(s, e, step)
    ensures Extends(s.log, ApplyCall(s, e, step).log)
  {
    assert !step.RecordQueueLoss? ==> ApplyCall(s, e, step).log == s.log;
  }

  lemma WriterLogGrows(s: State, step: WriterStep)
    requires WriterEnabled(s, step)
    ensures Extends(s.log, ApplyWriter(s, step).log)
  {
    assert !step.RecordWriteLoss? ==> ApplyWriter(s, step).log == s.log;
  }

  lemma LogGrows(s: State, a: Action)
    requires Enabled(s, a)
    ensures Extends(s.log, Apply(s, a).log)
  {
    match a
    case ByCall(e, step) => CallLogGrows(s, e, step);
    case ByCloser(closer, step) => assert ApplyClose(s, closer, step).log == s.log;
    case ByWriter(step) => WriterLogGrows(s, step);
  }

  lemma PrefixMonotone(log: seq<int>, longer: seq<int>)
    requires Monotone(longer) && Extends(log, longer)
    ensures Monotone(log)
  {
    assert forall i :: 0 <= i < |log| ==> longer[i] == log[i];
  }

  lemma {:induction false} RunWindows(run: seq<State>, i: nat)
    requires IsRun(run) && i < |run| && Monotone(run[i].log)
    ensures WindowInv(run[i])
  {
    if i > 0 {
      var a := RunStep(run, i - 1);
      LogGrows(run[i - 1], a);
      PrefixMonotone(run[i - 1].log, run[i].log);
      RunWindows(run, i - 1);
      KeepsWindow(run[i - 1], a, run[i]);
    }
  }

  /** When the clock never steps back in lock order, every summary spans exactly the losses it counts,
      and the summaries cut the loss log into consecutive pieces. */
  lemma WindowsExact(s: State)
    requires Reachable(s) && Monotone(s.log)
    ensures WindowInv(s)
  {
    var run :| IsRun(run) && run[|run| - 1] == s;
    RunWindows(run, |run| - 1);
  }

  lemma {:induction false} GapTotalBefore(out: seq<Line>, i: nat, j: nat)
    requires i < j <= |out| && out[i].Gap?
    ensures GapTotal(out[..i]) + out[i].loss.count <= GapTotal(out[..j])
  {
    GapTotalMonotone(out[..j], i + 1);
    assert out[..j][..i + 1] == out[..i] + [out[i]];
    OutAppend(out[..i], out[i]);
  }

  lemma SegmentsOrdered(log: seq<int>, from: nat, to: nat, from': nat, to': nat, x: int, y: int)
    requires Monotone(log) && to <= from' && from <= to && from' <= to' <= |log|
    requires x in log[from..to] && y in log[from'..to']
    ensures x <= y
  {
    var i :| 0 <= i < to - from && log[from..to][i] == x;
    var j :| 0 <= j < to' - from' && log[from'..to'][j] == y;
    assert log[from + i] <= log[from' + j];
  }

  lemma CoveredWindowIsOrdered(loss: Loss, log: seq<int>)
    requires Covers(loss, log) && loss.count > 0
    ensures loss.start in log && loss.end in log && loss.start <= loss.end
  {
    assert loss.start <= log[0] <= loss.end;
  }

  /** Gap durations are non-negative and successive gap lines have ordered windows. */
  lemma WindowsOrdered(s: State, i: nat, j: nat)
    requires Reachable(s) && Monotone(s.log)
    requires i < j < |s.out| && s.out[i].Gap? && s.out[j].Gap?
    ensures s.out[i].loss.start <= s.out[i].loss.end <= s.out[j].loss.start <= s.out[j].loss.end
  {
    WindowsExact(s);
    GapsOrdered(s.out, s.log, i, j);
  }

  lemma GapsOrdered(out: seq<Line>, log: seq<int>, i: nat, j: nat)
    requires Monotone(log) && i < j < |out| && out[i].Gap? && out[j].Gap?
    requires GapCovers(out, log, i) && GapCovers(out, log, j)
    ensures out[i].loss.start <= out[i].loss.end <= out[j].loss.start <= out[j].loss.end
  {
    var from, from' := GapTotal(out[..i]), GapTotal(out[..j]);
    var to, to' := from + out[i].loss.count, from' + out[j].loss.count;
    GapTotalBefore(out, i, j);
    CoveredWindowIsOrdered(out[i].loss, log[from..to]);
    CoveredWindowIsOrdered(out[j].loss, log[from'..to']);
    SegmentsOrdered(log, from, to, from', to', out[i].loss.end, out[j].loss.start);
  }
}
