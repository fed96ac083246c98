/**
 The audit logger as a concurrent protocol. Any number of enqueue calls and Close calls and the one
 writer goroutine interleave; each action is one lock region, channel operation, atomic addition or
 sink write. The sink may fail any write and the clock may return any value.
 */
module AuditProtocol {
  import opened Wrappers
  import opened LossWindow
  import SyncOnce

  /** An event is named by the enqueue call it was given to. */
  type Event = nat

  /** Where an enqueue call stands. The state read lock is held from Locked up to Leaving. */
  datatype CallPc = Preparing | Waiting | Locked | Sending | Losing | Bumping | Leaving | Returned

  /** Progress of the body that Close hands to the sync.Once. */
  datatype BodyPc = Fresh | Acquiring | Exclusive | Marked | Shut | Done

  datatype Outcome = Written | Undecodable | WriteFailed

  /** `next` is the event just received, or None once the closed channel is empty; `seen` counts the
      losses recorded before the last take. */
  datatype WriterPc =
    | Receiving
    | Received(next: Option<Event>)
    | Summarising(next: Option<Event>, snapshot: Loss, seen: nat)
    | Restoring(next: Option<Event>, snapshot: Loss, seen: nat)
    | Delivering(next: Option<Event>, seen: nat, failed: bool)
    | Recording
    | WriterBumping
    | Stopped(failed: bool)

  /** One line of sink output. A record remembers what the writer knew about losses at its take. */
  datatype Line =
    | Gap(loss: Loss)
    | Record(event: Event, seen: nat, failed: bool)

  datatype Handled = Handled(event: Event, outcome: Outcome)

  /** The shared fields of the logger, the program counters, and (from `log` on) the history. */
  datatype State = State(
    capacity: nat,
    calls: map<Event, CallPc>,
    once: SyncOnce.Once,
    body: BodyPc,
    closed: bool,
    channelClosed: bool,
    queue: seq<Event>,
    pending: Loss,
    dropped: nat,
    writer: WriterPc,
    out: seq<Line>,
    panicked: bool,
    log: seq<int>,
    unserialised: seq<Event>,
    rejected: seq<Event>,
    queueLost: seq<Event>,
    accepted: seq<Event>,
    handled: seq<Handled>)

  datatype CallStep =
    | Call
    | Unserialisable
    | Serialised
    | ReadLock
    | CheckClosed
    | Send
    | RecordQueueLoss(timestamp: int)
    | BumpQueueLoss
    | ReadUnlock

  /** A step of the once-only call, or a step of its body. */
  datatype CloseStep = OnceStep(once: SyncOnce.Step) | Lock | Mark | CloseChannel | Unlock

  datatype WriterStep =
    | Receive
    | Take
    | WriteGap(ok: bool)
    | Restore
    | Deliver(outcome: Outcome)
    | RecordWriteLoss(timestamp: int)
    | BumpWriteLoss

  datatype Action =
    | ByCall(e: Event, call: CallStep)
    | ByCloser(closer: nat, close: CloseStep)
    | ByWriter(step: WriterStep)

  predicate Init(s: State) {
    s.capacity >= 1 && s == Start(s.capacity)
  }

  function Start(capacity: nat): State {
    State(capacity, map[], SyncOnce.UNUSED, Fresh, false, false, [], NO_LOSS, 0, Receiving, [], false,
          [], [], [], [], [], [])
  }

  predicate At(s: State, e: Event, pc: CallPc) {
    e in s.calls && s.calls[e] == pc
  }

  predicate HoldsReadLock(pc: CallPc) {
    pc.Locked? || pc.Sending? || pc.Losing? || pc.Bumping? || pc.Leaving?
  }

  predicate WriteLocked(s: State) {
    s.body.Exclusive? || s.body.Marked? || s.body.Shut?
  }

  predicate CallEnabled(s: State, e: Event, step: CallStep) {
    match step
    case Call => e !in s.calls
    case Unserialisable => At(s, e, Preparing)
    case Serialised => At(s, e, Preparing)
    case ReadLock => At(s, e, Waiting) && !WriteLocked(s)
    case CheckClosed => At(s, e, Locked)
    case Send => At(s, e, Sending)
    case RecordQueueLoss(_) => At(s, e, Losing)
    case BumpQueueLoss => At(s, e, Bumping)
    case ReadUnlock => At(s, e, Leaving)
  }

  predicate CloseEnabled(s: State, closer: nat, step: CloseStep) {
    match step
    case OnceStep(once) => SyncOnce.Enabled(s.once, closer, once) && (once.Finish? ==> s.body.Done?)
    case Lock => InBody(s, closer, Acquiring) && forall e :: e in s.calls ==> !HoldsReadLock(s.calls[e])
    case Mark => InBody(s, closer, Exclusive)
    case CloseChannel => InBody(s, closer, Marked)
    case Unlock => InBody(s, closer, Shut)
  }

  predicate InBody(s: State, closer: nat, pc: BodyPc) {
    SyncOnce.At(s.once, closer, SyncOnce.Running) && s.body == pc
  }

  predicate WriterEnabled(s: State, step: WriterStep) {
    match step
    case Receive => s.writer.Receiving? && (s.queue != [] || s.channelClosed)
    case Take => s.writer.Received?
    case WriteGap(ok) => s.writer.Summarising? && (s.writer.snapshot.count == 0 ==> ok)
    case Restore => s.writer.Restoring?
    case Deliver(outcome) => s.writer.Delivering? && (s.writer.next.None? ==> outcome.Written?)
    case RecordWriteLoss(_) => s.writer.Recording?
    case BumpWriteLoss => s.writer.WriterBumping?
  }

  predicate Enabled(s: State, a: Action) {
    match a
    case ByCall(e, step) => CallEnabled(s, e, step)
    case ByCloser(closer, step) => CloseEnabled(s, closer, step)
    case ByWriter(step) => WriterEnabled(s, step)
  }

  function Move(s: State, e: Event, pc: CallPc): State {
    s.(calls := s.calls[e := pc])
  }

  /** One step of an enqueue call. A send on a closed channel would panic; a full queue takes the
      default branch of the select. */
  function ApplyCall(s: State, e: Event, step: CallStep): State {
    match step
    case Call => Move(s, e, Preparing)
    case Unserialisable =>
      Move(s, e, Returned).(unserialised := s.unserialised + [e], dropped := s.dropped + 1)
    case Serialised => Move(s, e, Waiting)
    case ReadLock => Move(s, e, Locked)
    case CheckClosed =>
      if s.closed then Move(s, e, Leaving).(rejected := s.rejected + [e]) else Move(s, e, Sending)
    case Send =>
      if s.channelClosed then s.(panicked := true)
      else if |s.queue| < s.capacity then
        Move(s, e, Leaving).(queue := s.queue + [e], accepted := s.accepted + [e])
      else Move(s, e, Losing)
    case RecordQueueLoss(timestamp) =>
      Move(s, e, Bumping).(pending := Recorded(s.pending, timestamp), log := s.log + [timestamp],
                           queueLost := s.queueLost + [e])
    case BumpQueueLoss => Move(s, e, Leaving).(dropped := s.dropped + 1)
    case ReadUnlock => Move(s, e, Returned)
  }

  /** One step of a Close call up to its wait: entering and leaving the sync.Once, or the body. */
  function ApplyClose(s: State, closer: nat, step: CloseStep): State {
    match step
    case OnceStep(once) =>
      s.(once := SyncOnce.Apply(s.once, closer, once), body := if once.Begin? then Acquiring else s.body)
    case Lock => s.(body := Exclusive)
    case Mark => s.(body := Marked, closed := true)
    case CloseChannel =>
      if s.channelClosed then s.(panicked := true) else s.(body := Shut, channelClosed := true)
    case Unlock => s.(body := Done)
  }

  /** The writer handles what it received: the end of the channel, or an event with the given outcome. */
  function ApplyDeliver(s: State, outcome: Outcome): State
    requires s.writer.Delivering?
  {
    match s.writer.next
    case None => s.(writer := Stopped(s.writer.failed))
    case Some(e) =>
      var handled := s.handled + [Handled(e, outcome)];
      match outcome
      case Written =>
        s.(handled := handled, out := s.out + [Record(e, s.writer.seen, s.writer.failed)], writer := Receiving)
      case Undecodable => s.(handled := handled, writer := Receiving)
      case WriteFailed => s.(handled := handled, writer := Recording)
  }

  function ApplyWriter(s: State, step: WriterStep): State
    requires WriterEnabled(s, step)
  {
    match step
    case Receive =>
      if s.queue != [] then s.(writer := Received(Some(s.queue[0])), queue := s.queue[1..])
      else s.(writer := Received(None))
    case Take =>
      s.(pending := NO_LOSS, writer := Summarising(s.writer.next, s.pending, |s.log|))
    case WriteGap(ok) =>
      var w := s.writer;
      if w.snapshot.count == 0 then s.(writer := Delivering(w.next, w.seen, false))
      else if ok then s.(out := s.out + [Gap(w.snapshot)], writer := Delivering(w.next, w.seen, false))
      else s.(writer := Restoring(w.next, w.snapshot, w.seen))
    case Restore =>
      s.(pending := Restored(s.pending, s.writer.snapshot), writer := Delivering(s.writer.next, s.writer.seen, true))
    case Deliver(outcome) => ApplyDeliver(s, outcome)
    case RecordWriteLoss(timestamp) =>
      s.(pending := Recorded(s.pending, timestamp), log := s.log + [timestamp], writer := WriterBumping)
    case BumpWriteLoss => s.(dropped := s.dropped + 1, writer := Receiving)
  }

  function Apply(s: State, a: Action): State
    requires Enabled(s, a)
  {
    match a
    case ByCall(e, step) => ApplyCall(s, e, step)
    case ByCloser(closer, step) => ApplyClose(s, closer, step)
    case ByWriter(step) => ApplyWriter(s, step)
  }

  ghost predicate Next(s: State, s': State) {
    exists a :: Enabled(s, a) && s' == Apply(s, a)
  }

  /** A finite run: starts fresh and takes one action at a time. */
  ghost predicate IsRun(run: seq<State>) {
    && run != []
    && Init(run[0])
    && forall i :: 0 <= i < |run| - 1 ==> StepAt(run, i)
  }

  ghost predicate StepAt(run: seq<State>, i: nat)
    requires i + 1 < |run|
  {
    Next(run[i], run[i + 1])
  }

  ghost predicate Reachable(s: State) {
    exists run :: IsRun(run) && run[|run| - 1] == s
  }

  // ----- Observations -----

  function GapTotal(out: seq<Line>): nat {
    if out == [] then 0
    else GapTotal(out[..|out| - 1]) + (if out[|out| - 1].Gap? then out[|out| - 1].loss.count else 0)
  }

  function Records(out: seq<Line>): seq<Event> {
    if out == [] then []
    else Records(out[..|out| - 1]) + (if out[|out| - 1].Record? then [out[|out| - 1].event] else [])
  }

  function Ids(handled: seq<Handled>): seq<Event> {
    seq(|handled|, i requires 0 <= i < |handled| => handled[i].event)
  }

  /** The handled events with one outcome, in order. */
  function Of(handled: seq<Handled>, outcome: Outcome): seq<Event> {
    if handled == [] then []
    else
      var last := handled[|handled| - 1];
      Of(handled[..|handled| - 1], outcome) + (if last.outcome == outcome then [last.event] else [])
  }

  /** Losses the writer holds between a take and its resolution. */
  function Held(w: WriterPc): nat {
    if w.Summarising? || w.Restoring? then w.snapshot.count else 0
  }

  /** The event in the writer's hands, as a sequence of length at most one. */
  function Hand(w: WriterPc): seq<Event> {
    if (w.Received? || w.Summarising? || w.Restoring? || w.Delivering?) && w.next.Some? then [w.next.value] else []
  }

  predicate Undecided(pc: CallPc) {
    pc.Preparing? || pc.Waiting? || pc.Locked? || pc.Sending? || pc.Losing?
  }

  /** In how many of the nine places event `e` currently is. */
  function Places(s: State, e: Event): nat {
    (if e in s.calls && Undecided(s.calls[e]) then 1 else 0)
    + multiset(s.unserialised)[e]
    + multiset(s.rejected)[e]
    + multiset(s.queueLost)[e]
    + multiset(s.queue)[e]
    + multiset(Hand(s.writer))[e]
    + multiset(Of(s.handled, Undecodable))[e]
    + multiset(Of(s.handled, WriteFailed))[e]
    + multiset(Records(s.out))[e]
  }

  function BumpingCalls(s: State): set<Event> {
    set e | e in s.calls && s.calls[e].Bumping?
  }

  // ----- Invariants -----

  ghost predicate LockInv(s: State) {
    && !s.panicked
    && SyncOnce.Inv(s.once)
    && (s.body.Fresh? <==> s.once.begun == 0)
    && (s.once.done ==> s.body.Done?)
    && (s.closed <==> s.body.Marked? || s.body.Shut? || s.body.Done?)
    && (s.channelClosed <==> s.body.Shut? || s.body.Done?)
    && |s.queue| <= s.capacity
    && (forall e :: e in s.calls ==>
          && (HoldsReadLock(s.calls[e]) ==> !WriteLocked(s))
          && (s.calls[e].Sending? || s.calls[e].Losing? || s.calls[e].Bumping? ==> !s.closed))
  }

  /** Conservation: what is pending, held by the writer or written in gap lines is what was lost. */
  ghost predicate LossInv(s: State) {
    && s.pending.count + Held(s.writer) + GapTotal(s.out) == |s.log|
    && |s.queueLost| + |Of(s.handled, WriteFailed)| == |s.log| + (if s.writer.Recording? then 1 else 0)
  }

  /** The dropped counter lags behind by exactly the additions still to be made after an unlock. */
  ghost predicate DroppedInv(s: State) {
    s.dropped + |BumpingCalls(s)| + (if s.writer.WriterBumping? then 1 else 0) == |s.log| + |s.unserialised|
  }

  ghost predicate SeenInv(s: State) {
    && (s.writer.Summarising? ==> s.writer.seen == GapTotal(s.out) + s.writer.snapshot.count)
    && (s.writer.Restoring? ==>
          s.writer.seen == GapTotal(s.out) + s.writer.snapshot.count && s.writer.snapshot.count > 0)
    && (s.writer.Delivering? ==>
          if s.writer.failed then GapTotal(s.out) < s.writer.seen else GapTotal(s.out) == s.writer.seen)
  }

  ghost predicate SummaryInv(s: State) {
    forall i :: 0 <= i < |s.out| && s.out[i].Record? ==>
      if s.out[i].failed then GapTotal(s.out[..i]) < s.out[i].seen else GapTotal(s.out[..i]) == s.out[i].seen
  }

  /** Accepted events leave the queue in the order they entered it. */
  ghost predicate FifoInv(s: State) {
    s.accepted == Ids(s.handled) + Hand(s.writer) + s.queue
  }

  ghost predicate SinkInv(s: State) {
    Records(s.out) == Of(s.handled, Written)
  }

  /** How often `e` occurs among the undecided calls and the four verdicts of enqueue. */
  function Verdicts(s: State, e: Event): nat {
    (if e in s.calls && Undecided(s.calls[e]) then 1 else 0)
    + multiset(s.unserialised)[e]
    + multiset(s.rejected)[e]
    + multiset(s.queueLost)[e]
    + multiset(s.accepted)[e]
  }

  ghost predicate VerdictInv(s: State) {
    forall e :: Verdicts(s, e) == if e in s.calls then 1 else 0
  }

  predicate Ending(w: WriterPc) {
    w.Stopped? || ((w.Received? || w.Summarising? || w.Restoring? || w.Delivering?) && w.next.None?)
  }

  ghost predicate StopInv(s: State) {
    && (Ending(s.writer) ==> s.channelClosed && s.queue == [])
    && (Ending(s.writer) && (s.writer.Summarising? || s.writer.Restoring? || s.writer.Delivering?) ==>
          s.writer.seen == |s.log|)
    && (s.writer.Stopped? ==> (s.writer.failed <==> s.pending.count > 0))
  }

  ghost predicate Inv(s: State) {
    && LockInv(s) && LossInv(s) && DroppedInv(s) && SeenInv(s) && SummaryInv(s)
    && FifoInv(s) && SinkInv(s) && VerdictInv(s) && StopInv(s)
  }

  // ----- Sequence facts -----

  lemma OutAppend(out: seq<Line>, line: Line)
    ensures GapTotal(out + [line]) == GapTotal(out) + (if line.Gap? then line.loss.count else 0)
    ensures Records(out + [line]) == Records(out) + (if line.Record? then [line.event] else [])
  {
    assert (out + [line])[..|out|] == out;
  }

  lemma OfAppend(handled: seq<Handled>, h: Handled, outcome: Outcome)
    ensures Of(handled + [h], outcome) == Of(handled, outcome) + (if h.outcome == outcome then [h.event] else [])
  {
    assert (handled + [h])[..|handled|] == handled;
  }

  lemma {:induction false} GapTotalMonotone(out: seq<Line>, i: nat)
    requires i <= |out|
    ensures GapTotal(out[..i]) <= GapTotal(out)
  {
    if i < |out| {
      var init := out[..|out| - 1];
      assert init[..i] == out[..i];
      GapTotalMonotone(init, i);
    } else {
      assert out[..i] == out;
    }
  }

  lemma CountAppend(xs: seq<Event>, x: Event, e: Event)
    ensures multiset(xs + [x])[e] == multiset(xs)[e] + (if x == e then 1 else 0)
  {
  }

  // ----- Each action keeps each invariant -----

  /** What the three kinds of actions leave alone. */
  lemma CallFrame(s: State, e: Event, step: CallStep)
    requires CallEnabled(s, e, step)
    ensures var s' := ApplyCall(s, e, step);
            s'.writer == s.writer && s'.out == s.out && s'.handled == s.handled
  {
  }

  lemma WriterFrame(s: State, step: WriterStep)
    requires WriterEnabled(s, step)
    ensures var s' := ApplyWriter(s, step);
            && s'.calls == s.calls && s'.unserialised == s.unserialised && s'.rejected == s.rejected
            && s'.queueLost == s.queueLost && s'.accepted == s.accepted
  {
  }

  lemma CallKeepsLock(s: State, e: Event, step: CallStep)
    requires LockInv(s) && CallEnabled(s, e, step)
    ensures LockInv(ApplyCall(s, e, step))
  {
  }

  lemma CloseKeepsLock(s: State, closer: nat, step: CloseStep)
    requires LockInv(s) && CloseEnabled(s, closer, step)
    ensures LockInv(ApplyClose(s, closer, step))
  {
    if step.OnceStep? {
      SyncOnce.KeepsInv(s.once, closer, step.once);
    }
  }

  lemma KeepsLock(s: State, a: Action)
    requires LockInv(s) && Enabled(s, a)
    ensures LockInv(Apply(s, a))
  {
    match a
    case ByCall(e, step) => CallKeepsLock(s, e, step);
    case ByCloser(closer, step) => CloseKeepsLock(s, closer, step);
    case ByWriter(step) => WriterFrame(s, step);
  }

  lemma WriteGapEffect(s: State, ok: bool)
    requires WriterEnabled(s, WriteGap(ok))
    ensures var s' := ApplyWriter(s, WriteGap(ok));
            && GapTotal(s'.out) == GapTotal(s.out) + (if ok then s.writer.snapshot.count else 0)
            && Records(s'.out) == Records(s.out)
            && s'.handled == s.handled
  {
    OutAppend(s.out, Gap(s.writer.snapshot));
  }

  lemma WriterKeepsSeen(s: State, step: WriterStep)
    requires LossInv(s) && SeenInv(s) && WriterEnabled(s, step)
    ensures SeenInv(ApplyWriter(s, step))
  {
    if step.WriteGap? {
      WriteGapEffect(s, step.ok);
    }
  }

  lemma KeepsSeen(s: State, a: Action)
    requires LossInv(s) && SeenInv(s) && Enabled(s, a)
    ensures SeenInv(Apply(s, a))
  {
    match a
    case ByCall(e, step) => CallFrame(s, e, step);
    case ByCloser(_, _) =>
    case ByWriter(step) => WriterKeepsSeen(s, step);
  }

  lemma SummaryAppend(s: State, s': State, line: Line)
    requires SummaryInv(s) && s'.out == s.out + [line]
    requires line.Record? ==> if line.failed then GapTotal(s.out) < line.seen else GapTotal(s.out) == line.seen
    ensures SummaryInv(s')
  {
    forall i | 0 <= i < |s'.out| && s'.out[i].Record?
      ensures if s'.out[i].failed then GapTotal(s'.out[..i]) < s'.out[i].seen
              else GapTotal(s'.out[..i]) == s'.out[i].seen
    {
      if i < |s.out| {
        assert s'.out[..i] == s.out[..i] && s'.out[i] == s.out[i];
      } else {
        assert s'.out[..i] == s.out;
      }
    }
  }

  lemma WriterKeepsSummary(s: State, step: WriterStep)
    requires SeenInv(s) && SummaryInv(s) && WriterEnabled(s, step)
    ensures SummaryInv(ApplyWriter(s, step))
  {
    var s' := ApplyWriter(s, step);
    if step.WriteGap? && s'.out != s.out {
      SummaryAppend(s, s', Gap(s.writer.snapshot));
    } else if step.Deliver? && s'.out != s.out {
      SummaryAppend(s, s', Record(s.writer.next.value, s.writer.seen, s.writer.failed));
    } else {
      assert s'.out == s.out;
    }
  }

  lemma KeepsSummary(s: State, a: Action)
    requires SeenInv(s) && SummaryInv(s) && Enabled(s, a)
    ensures SummaryInv(Apply(s, a))
  {
    match a
    case ByCall(e, step) => CallFrame(s, e, step);
    case ByCloser(closer, step) => assert ApplyClose(s, closer, step).out == s.out;
    case ByWriter(step) => WriterKeepsSummary(s, step);
  }

  lemma BumpingMoves(s: State, e: Event, pc: CallPc)
    ensures |BumpingCalls(Move(s, e, pc))|
            == |BumpingCalls(s)| + (if pc.Bumping? then 1 else 0) - (if At(s, e, Bumping) then 1 else 0)
  {
    var before, after := BumpingCalls(s), BumpingCalls(Move(s, e, pc));
    if pc.Bumping? {
      assert after == before + {e};
    } else {
      assert after == before - {e};
    }
  }

  lemma CallKeepsDropped(s: State, e: Event, step: CallStep)
    requires LockInv(s) && DroppedInv(s) && CallEnabled(s, e, step)
    ensures DroppedInv(ApplyCall(s, e, step))
  {
    var s' := ApplyCall(s, e, step);
    BumpingMoves(s, e, s'.calls[e]);
    assert s'.calls == Move(s, e, s'.calls[e]).calls;
    CallFrame(s, e, step);
  }

  lemma KeepsDropped(s: State, a: Action)
    requires LockInv(s) && DroppedInv(s) && Enabled(s, a)
    ensures DroppedInv(Apply(s, a))
  {
    match a
    case ByCall(e, step) => CallKeepsDropped(s, e, step);
    case ByCloser(closer, step) => assert ApplyClose(s, closer, step).calls == s.calls;
    case ByWriter(step) => WriterFrame(s, step);
  }

  lemma DeliverAppends(s: State, outcome: Outcome, kind: Outcome)
    requires WriterEnabled(s, Deliver(outcome)) && s.writer.next.Some?
    ensures Of(ApplyDeliver(s, outcome).handled, kind)
            == Of(s.handled, kind) + (if outcome == kind then [s.writer.next.value] else [])
  {
    OfAppend(s.handled, Handled(s.writer.next.value, outcome), kind);
  }

  lemma DeliverWrites(s: State, outcome: Outcome)
    requires WriterEnabled(s, Deliver(outcome)) && s.writer.next.Some?
    ensures var out := ApplyDeliver(s, outcome).out;
            && Records(out) == Records(s.out) + (if outcome.Written? then [s.writer.next.value] else [])
            && GapTotal(out) == GapTotal(s.out)
  {
    OutAppend(s.out, Record(s.writer.next.value, s.writer.seen, s.writer.failed));
  }

  lemma EventKeepsLoss(s: State, outcome: Outcome)
    requires LossInv(s) && WriterEnabled(s, Deliver(outcome)) && s.writer.next.Some?
    ensures LossInv(ApplyDeliver(s, outcome))
  {
    DeliverWrites(s, outcome);
    DeliverAppends(s, outcome, WriteFailed);
    DeliverFrame(s, outcome);
  }

  lemma DeliverFrame(s: State, outcome: Outcome)
    requires WriterEnabled(s, Deliver(outcome))
    ensures var s' := ApplyDeliver(s, outcome);
            && s'.pending == s.pending && s'.log == s.log && s'.queueLost == s.queueLost
            && Held(s'.writer) == 0
            && (s'.writer.Recording? <==> s.writer.next.Some? && outcome.WriteFailed?)
            && (s.writer.next.None? ==> s'.out == s.out && s'.handled == s.handled)
  {
  }

  lemma DeliverKeepsLoss(s: State, outcome: Outcome)
    requires LossInv(s) && WriterEnabled(s, Deliver(outcome))
    ensures LossInv(ApplyDeliver(s, outcome))
  {
    if s.writer.next.Some? {
      EventKeepsLoss(s, outcome);
    } else {
      DeliverFrame(s, outcome);
      LossFrame(s, ApplyDeliver(s, outcome));
    }
  }

  /** Moving losses between pending and held, or recording one more, keeps the balance. */
  lemma LossFrame(s: State, s': State)
    requires LossInv(s) && s'.out == s.out && s'.handled == s.handled
    requires s'.pending.count + Held(s'.writer) - |s'.log| == s.pending.count + Held(s.writer) - |s.log|
    requires |s'.log| + (if s'.writer.Recording? then 1 else 0) - |s'.queueLost|
             == |s.log| + (if s.writer.Recording? then 1 else 0) - |s.queueLost|
    ensures LossInv(s')
  {
  }

  lemma WriteGapKeepsLoss(s: State, ok: bool)
    requires LossInv(s) && WriterEnabled(s, WriteGap(ok))
    ensures LossInv(ApplyWriter(s, WriteGap(ok)))
  {
    WriteGapEffect(s, ok);
  }

  lemma WriterKeepsLoss(s: State, step: WriterStep)
    requires LossInv(s) && WriterEnabled(s, step)
    ensures LossInv(ApplyWriter(s, step))
  {
    match step
    case WriteGap(ok) => WriteGapKeepsLoss(s, ok);
    case Deliver(outcome) => DeliverKeepsLoss(s, outcome);
    case _ =>
      HistoryFrame(s, step);
      LossFrame(s, ApplyWriter(s, step));
  }

  lemma HistoryFrame(s: State, step: WriterStep)
    requires WriterEnabled(s, step) && !step.WriteGap? && !step.Deliver?
    ensures ApplyWriter(s, step).out == s.out && ApplyWriter(s, step).handled == s.handled
  {
  }

  lemma CallKeepsLoss(s: State, e: Event, step: CallStep)
    requires LossInv(s) && CallEnabled(s, e, step)
    ensures LossInv(ApplyCall(s, e, step))
  {
    CallFrame(s, e, step);
    LossFrame(s, ApplyCall(s, e, step));
  }

  lemma KeepsLoss(s: State, a: Action)
    requires LossInv(s) && Enabled(s, a)
    ensures LossInv(Apply(s, a))
  {
    match a
    case ByCall(e, step) => CallKeepsLoss(s, e, step);
    case ByCloser(closer, step) => LossFrame(s, ApplyClose(s, closer, step));
    case ByWriter(step) => WriterKeepsLoss(s, step);
  }

  lemma DeliverKeepsSink(s: State, outcome: Outcome)
    requires SinkInv(s) && WriterEnabled(s, Deliver(outcome))
    ensures SinkInv(ApplyDeliver(s, outcome))
  {
    if s.writer.next.Some? {
      DeliverWrites(s, outcome);
      DeliverAppends(s, outcome, Written);
    }
  }

  lemma SinkFrame(s: State, s': State)
    requires SinkInv(s) && s'.out == s.out && s'.handled == s.handled
    ensures SinkInv(s')
  {
  }

  lemma WriteGapKeepsSink(s: State, ok: bool)
    requires SinkInv(s) && WriterEnabled(s, WriteGap(ok))
    ensures SinkInv(ApplyWriter(s, WriteGap(ok)))
  {
    WriteGapEffect(s, ok);
  }

  lemma WriterKeepsSink(s: State, step: WriterStep)
    requires SinkInv(s) && WriterEnabled(s, step)
    ensures SinkInv(ApplyWriter(s, step))
  {
    match step
    case WriteGap(ok) => WriteGapKeepsSink(s, ok);
    case Deliver(outcome) => DeliverKeepsSink(s, outcome);
    case _ =>
      HistoryFrame(s, step);
      SinkFrame(s, ApplyWriter(s, step));
  }

  lemma KeepsSink(s: State, a: Action)
    requires SinkInv(s) && Enabled(s, a)
    ensures SinkInv(Apply(s, a))
  {
    match a
    case ByCall(e, step) =>
      CallFrame(s, e, step);
      SinkFrame(s, ApplyCall(s, e, step));
    case ByCloser(closer, step) => SinkFrame(s, ApplyClose(s, closer, step));
    case ByWriter(step) => WriterKeepsSink(s, step);
  }

  lemma DeliverKeepsFifo(s: State, outcome: Outcome)
    requires FifoInv(s) && WriterEnabled(s, Deliver(outcome))
    ensures FifoInv(ApplyDeliver(s, outcome))
  {
    if s.writer.next.Some? {
      assert Ids(ApplyDeliver(s, outcome).handled) == Ids(s.handled) + Hand(s.writer);
    }
  }

  lemma ReceiveKeepsFifo(s: State)
    requires FifoInv(s) && WriterEnabled(s, Receive)
    ensures FifoInv(ApplyWriter(s, Receive))
  {
    var s' := ApplyWriter(s, Receive);
    assert s.queue == Hand(s'.writer) + s'.queue;
  }

  lemma WriterKeepsFifo(s: State, step: WriterStep)
    requires FifoInv(s) && WriterEnabled(s, step)
    ensures FifoInv(ApplyWriter(s, step))
  {
    match step
    case Deliver(outcome) => DeliverKeepsFifo(s, outcome);
    case Receive => ReceiveKeepsFifo(s);
    case _ => assert Hand(ApplyWriter(s, step).writer) == Hand(s.writer);
  }

  lemma KeepsFifo(s: State, a: Action)
    requires FifoInv(s) && Enabled(s, a)
    ensures FifoInv(Apply(s, a))
  {
    match a
    case ByCall(e, step) =>
      CallFrame(s, e, step);
      assert step.Send? || ApplyCall(s, e, step).accepted == s.accepted;
    case ByCloser(_, _) =>
    case ByWriter(step) => WriterKeepsFifo(s, step);
  }

  lemma SendKeepsVerdict(s: State, e: Event, x: Event)
    requires LockInv(s) && CallEnabled(s, e, Send)
    ensures Verdicts(ApplyCall(s, e, Send), x) == Verdicts(s, x)
  {
    CountAppend(s.accepted, e, x);
  }

  lemma CheckKeepsVerdict(s: State, e: Event, x: Event)
    requires CallEnabled(s, e, CheckClosed)
    ensures Verdicts(ApplyCall(s, e, CheckClosed), x) == Verdicts(s, x)
  {
    CountAppend(s.rejected, e, x);
  }

  lemma LossKeepsVerdict(s: State, e: Event, timestamp: int, x: Event)
    requires CallEnabled(s, e, RecordQueueLoss(timestamp))
    ensures Verdicts(ApplyCall(s, e, RecordQueueLoss(timestamp)), x) == Verdicts(s, x)
  {
    CountAppend(s.queueLost, e, x);
  }

  /** Every step of an enqueue call moves exactly that call's event between verdicts. */
  lemma CallKeepsVerdict(s: State, e: Event, step: CallStep, x: Event)
    requires LockInv(s) && CallEnabled(s, e, step)
    requires Verdicts(s, x) == if x in s.calls then 1 else 0
    ensures Verdicts(ApplyCall(s, e, step), x) == if x in ApplyCall(s, e, step).calls then 1 else 0
  {
    match step
    case Unserialisable => CountAppend(s.unserialised, e, x);
    case CheckClosed => CheckKeepsVerdict(s, e, x);
    case Send => SendKeepsVerdict(s, e, x);
    case RecordQueueLoss(timestamp) => LossKeepsVerdict(s, e, timestamp, x);
    case _ =>
  }

  lemma VerdictFrame(s: State, s': State)
    requires VerdictInv(s) && s'.calls == s.calls && s'.unserialised == s.unserialised && s'.rejected == s.rejected
    requires s'.queueLost == s.queueLost && s'.accepted == s.accepted
    ensures VerdictInv(s')
  {
    forall x
      ensures Verdicts(s', x) == if x in s'.calls then 1 else 0
    {
      assert Verdicts(s, x) == Verdicts(s', x);
    }
  }

  lemma CallKeepsVerdicts(s: State, e: Event, step: CallStep)
    requires LockInv(s) && VerdictInv(s) && CallEnabled(s, e, step)
    ensures VerdictInv(ApplyCall(s, e, step))
  {
    forall x
      ensures Verdicts(ApplyCall(s, e, step), x) == if x in ApplyCall(s, e, step).calls then 1 else 0
    {
      assert Verdicts(s, x) == if x in s.calls then 1 else 0;
      CallKeepsVerdict(s, e, step, x);
    }
  }

  lemma KeepsVerdict(s: State, a: Action)
    requires LockInv(s) && VerdictInv(s) && Enabled(s, a)
    ensures VerdictInv(Apply(s, a))
  {
    match a
    case ByCall(e, step) => CallKeepsVerdicts(s, e, step);
    case ByCloser(closer, step) => VerdictFrame(s, ApplyClose(s, closer, step));
    case ByWriter(step) =>
      WriterFrame(s, step);
      VerdictFrame(s, ApplyWriter(s, step));
  }

  lemma CallKeepsStop(s: State, e: Event, step: CallStep)
    requires LockInv(s) && StopInv(s) && CallEnabled(s, e, step)
    ensures StopInv(ApplyCall(s, e, step))
  {
  }

  lemma WriterKeepsStop(s: State, step: WriterStep)
    requires LossInv(s) && SeenInv(s) && StopInv(s) && WriterEnabled(s, step)
    ensures StopInv(ApplyWriter(s, step))
  {
  }

  lemma KeepsStop(s: State, a: Action)
    requires LockInv(s) && LossInv(s) && SeenInv(s) && StopInv(s) && Enabled(s, a)
    ensures StopInv(Apply(s, a))
  {
    match a
    case ByCall(e, step) => CallKeepsStop(s, e, step);
    case ByCloser(_, _) =>
    case ByWriter(step) => WriterKeepsStop(s, step);
  }

  lemma KeepsInv(s: State, a: Action)
    requires Inv(s) && Enabled(s, a)
    ensures Inv(Apply(s, a))
  {
    KeepsLock(s, a);
    KeepsLoss(s, a);
    KeepsDropped(s, a);
    KeepsSeen(s, a);
    KeepsSummary(s, a);
    KeepsFifo(s, a);
    KeepsSink(s, a);
    KeepsVerdict(s, a);
    KeepsStop(s, a);
  }
}
