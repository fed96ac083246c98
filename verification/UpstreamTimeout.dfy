/**
 One upstream round trip under a header timeout: the timer callback, cancellation of the parent request,
 the inner round trip and closes of the returned body race over two flags and a child context that keeps
 the first cause it is cancelled with. Time is discrete.
 */
module UpstreamTimeout {
  import opened Wrappers
  import SyncOnce

  /** Why a context was cancelled: the timer, the parent with its own cause, or a plain cancel. */
  datatype Cause = TimedOut | Parent(id: nat) | Canceled

  /** What the inner round trip returned: whether an error, and whether a response with a body. */
  datatype Reply = Reply(failed: bool, body: bool)

  /** What the wrapper returns: the relabelled deadline error, the inner reply as it is, or the inner
      response with its body wrapped to cancel on close. */
  datatype Outcome = DeadlineExceeded | Unchanged(reply: Reply) | Wrapped

  /** Armed until it fires or is stopped; Firing while the callback holds the mutex. */
  datatype TimerPc = Armed | Fired | Firing | Over

  datatype CallerPc =
    | InFlight
    | Arrived(reply: Reply)
    | Decided(reply: Reply, timeoutWon: bool)
    | Returned(reply: Reply, outcome: Outcome)

  /** Progress of the cancel that the body wrapper hands to its sync.Once. */
  datatype WrapperPc = Idle | Cancelling | Cancelled

  /** Any number of goroutines may close the wrapped body; each Close call is a closer of its own. */
  datatype State = State(
    now: nat,
    fireAt: nat,
    parent: Option<nat>,
    child: Option<Cause>,
    completed: bool,
    timedOut: bool,
    timer: TimerPc,
    caller: CallerPc,
    once: SyncOnce.Once,
    wrapper: WrapperPc,
    wrapperCancels: nat,
    innerClosed: set<nat>,
    bodyCloses: nat)

  datatype Action =
    | Tick
    | Fire
    | EnterCallback
    | CancelChild
    | CancelParent(id: nat)
    | Propagate
    | InnerReturns(reply: Reply)
    | Complete
    | Finish
    | CloseStep(closer: nat, step: SyncOnce.Step)
    | CancelOnClose(closer: nat)
    | CloseInner(closer: nat)

  function FirstCause(cause: Option<Cause>, next: Cause): Option<Cause> {
    if cause.Some? then cause else Some(next)
  }

  function Start(timeout: nat, parent: Option<nat>): State {
    State(0, timeout, parent, if parent.Some? then Some(Parent(parent.value)) else None,
          false, false, Armed, InFlight, SyncOnce.UNUSED, Idle, 0, {}, 0)
  }

  predicate Init(s: State) {
    s.fireAt > 0 && s == Start(s.fireAt, s.parent)
  }

  predicate Enabled(s: State, a: Action) {
    match a
    case Tick => true
    case Fire => s.timer.Armed? && s.now >= s.fireAt
    case EnterCallback => s.timer.Fired?
    case CancelChild => s.timer.Firing?
    case CancelParent(_) => s.parent.None?
    case Propagate => s.parent.Some? && s.child.None?
    case InnerReturns(_) => s.caller.InFlight?
    case Complete => s.caller.Arrived? && !s.timer.Firing?
    case Finish => s.caller.Decided?
    case CloseStep(closer, step) =>
      HandedOut(s) && SyncOnce.Enabled(s.once, closer, step) && (step.Finish? ==> s.wrapper.Cancelled?)
    case CancelOnClose(closer) => HandedOut(s) && SyncOnce.At(s.once, closer, SyncOnce.Running) && s.wrapper.Cancelling?
    case CloseInner(closer) => HandedOut(s) && SyncOnce.At(s.once, closer, SyncOnce.Past) && closer !in s.innerClosed
  }

  /** The caller has the response with the wrapped body. */
  predicate HandedOut(s: State) {
    s.caller.Returned? && s.caller.outcome.Wrapped?
  }

  /** The caller's critical section. */
  function ApplyComplete(s: State): State
    requires Enabled(s, Complete)
  {
    s.(completed := true,
       timer := if s.timer.Armed? then Over else s.timer,
       caller := Decided(s.caller.reply, s.timedOut && s.child == Some(TimedOut)))
  }

  function ApplyFinish(s: State): State
    requires Enabled(s, Finish)
  {
    var reply := s.caller.reply;
    if s.caller.timeoutWon then
      s.(bodyCloses := if reply.body then s.bodyCloses + 1 else s.bodyCloses,
         caller := Returned(reply, DeadlineExceeded))
    else if reply.failed || !reply.body then
      s.(child := FirstCause(s.child, Canceled), caller := Returned(reply, Unchanged(reply)))
    else
      s.(caller := Returned(reply, Wrapped))
  }

  function Apply(s: State, a: Action): State
    requires Enabled(s, a)
  {
    match a
    case Tick => s.(now := s.now + 1)
    case Fire => s.(timer := Fired)
    case EnterCallback => if s.completed then s.(timer := Over) else s.(timedOut := true, timer := Firing)
    case CancelChild => s.(child := FirstCause(s.child, TimedOut), timer := Over)
    case CancelParent(id) => s.(parent := Some(id))
    case Propagate => s.(child := Some(Parent(s.parent.value)))
    case InnerReturns(reply) => s.(caller := Arrived(reply))
    case Complete => ApplyComplete(s)
    case Finish => ApplyFinish(s)
    case CloseStep(closer, step) =>
      s.(once := SyncOnce.Apply(s.once, closer, step), wrapper := if step.Begin? then Cancelling else s.wrapper)
    case CancelOnClose(_) =>
      s.(child := FirstCause(s.child, Canceled), wrapperCancels := s.wrapperCancels + 1, wrapper := Cancelled)
    case CloseInner(closer) => s.(bodyCloses := s.bodyCloses + 1, innerClosed := s.innerClosed + {closer})
  }

  /** The states a run passes through, and the action taken in each but the last. */
  ghost predicate IsRun(run: seq<State>, actions: seq<Action>) {
    && |run| == |actions| + 1
    && Init(run[0])
    && forall i :: 0 <= i < |actions| ==> Enabled(run[i], actions[i]) && run[i + 1] == Apply(run[i], actions[i])
  }

  ghost predicate Reachable(s: State) {
    exists run, actions :: IsRun(run, actions) && run[|actions|] == s
  }

  // ----- Invariants -----

  ghost predicate TimerInv(s: State) {
    && s.fireAt > 0
    && (s.timer.Firing? ==> s.timedOut && !s.completed)
    && (s.timedOut ==> s.timer.Firing? || s.timer.Over?)
    && (s.timedOut && s.timer.Over? ==> s.child.Some?)
    && (s.child == Some(TimedOut) ==> s.timedOut && s.timer.Over?)
    && (s.child.Some? && s.child.value.Parent? ==> s.parent == Some(s.child.value.id))
    && (s.completed ==> !s.timer.Armed?)
    && (!s.completed && s.timer.Over? ==> s.timedOut)
  }

  ghost predicate CallerInv(s: State) {
    && (s.completed <==> s.caller.Decided? || s.caller.Returned?)
    && (s.caller.Decided? ==> (s.caller.timeoutWon <==> s.timedOut && s.child == Some(TimedOut)))
    && (s.child == Some(Canceled) ==> s.caller.Returned?)
    && (s.caller.Returned? ==>
          && (s.caller.outcome.DeadlineExceeded? <==> s.timedOut && s.child == Some(TimedOut))
          && match s.caller.outcome
             case DeadlineExceeded => s.bodyCloses == (if s.caller.reply.body then 1 else 0)
             case Unchanged(reply) => reply == s.caller.reply && s.child.Some? && s.bodyCloses == 0
             case Wrapped => !s.caller.reply.failed && s.caller.reply.body && s.bodyCloses == |s.innerClosed|)
    && (!s.caller.Returned? ==> s.bodyCloses == 0)
  }

  ghost predicate WrapperInv(s: State) {
    && SyncOnce.Inv(s.once)
    && (!HandedOut(s) ==> s.once == SyncOnce.UNUSED && s.innerClosed == {})
    && (s.wrapper.Idle? <==> s.once.begun == 0)
    && (s.once.done ==> s.wrapper.Cancelled?)
    && s.wrapperCancels == (if s.wrapper.Cancelled? then 1 else 0)
    && (s.wrapper.Cancelled? ==> s.child.Some?)
    && (forall c :: c in s.innerClosed ==> SyncOnce.At(s.once, c, SyncOnce.Past))
  }

  ghost predicate Inv(s: State) {
    TimerInv(s) && CallerInv(s) && WrapperInv(s)
  }

  lemma KeepsWrapper(s: State, a: Action)
    requires Inv(s) && Enabled(s, a)
    ensures WrapperInv(Apply(s, a))
  {
    if a.CloseStep? {
      SyncOnce.KeepsInv(s.once, a.closer, a.step);
    }
  }

  lemma KeepsInv(s: State, a: Action)
    requires Inv(s) && Enabled(s, a)
    ensures Inv(Apply(s, a))
  {
    KeepsWrapper(s, a);
  }

  lemma {:induction false} RunInv(run: seq<State>, actions: seq<Action>, i: nat)
    requires IsRun(run, actions) && i < |run|
    ensures Inv(run[i])
  {
    if i > 0 {
      RunInv(run, actions, i - 1);
      KeepsInv(run[i - 1], actions[i - 1]);
      assert run[i - 1 + 1] == Apply(run[i - 1], actions[i - 1]);
    }
  }

  lemma ReachableInv(s: State)
    requires Reachable(s)
    ensures Inv(s)
  {
    var run, actions :| IsRun(run, actions) && run[|actions|] == s;
    RunInv(run, actions, |actions|);
  }

  // ----- Guarantees -----

  /** What the caller gets when the timer did not win. */
  function WithoutTimeout(reply: Reply): Outcome {
    if reply.failed || !reply.body then Unchanged(reply) else Wrapped
  }

  /** The deadline error is returned if and only if the callback ran before completion and its cancel was
      the first cause; a response body that came along was then closed, once. */
  lemma DeadlineIffTimerWon(s: State)
    requires Reachable(s) && s.caller.Returned?
    ensures s.caller.outcome.DeadlineExceeded? <==> s.timedOut && s.child == Some(TimedOut)
    ensures s.caller.outcome.DeadlineExceeded? ==> s.bodyCloses == (if s.caller.reply.body then 1 else 0)
    ensures !s.caller.outcome.DeadlineExceeded? ==>
              s.caller.outcome == WithoutTimeout(s.caller.reply)
  {
    ReachableInv(s);
    var run, actions :| IsRun(run, actions) && run[|actions|] == s;
    OutcomeOfReply(run, actions, |actions|);
  }

  ghost predicate OutcomeMatches(s: State) {
    s.caller.Returned? && !s.caller.outcome.DeadlineExceeded? ==>
      s.caller.outcome == WithoutTimeout(s.caller.reply)
  }

  lemma {:induction false} OutcomeOfReply(run: seq<State>, actions: seq<Action>, i: nat)
    requires IsRun(run, actions) && i < |run|
    ensures OutcomeMatches(run[i])
  {
    if i > 0 {
      OutcomeOfReply(run, actions, i - 1);
      assert run[i - 1 + 1] == Apply(run[i - 1], actions[i - 1]);
    }
  }

  /** After completion the timer callback has no effect on the flags or the context. */
  lemma TimerNeverCancelsAfterCompletion(s: State, a: Action)
    requires Reachable(s) && s.completed && Enabled(s, a)
    ensures Apply(s, a).completed && Apply(s, a).timedOut == s.timedOut
    ensures a.Fire? || a.EnterCallback? || a.CancelChild? ==> Apply(s, a).child == s.child
    ensures Apply(s, a).child == Some(TimedOut) ==> s.child == Some(TimedOut)
  {
    ReachableInv(s);
  }

  lemma FirstCauseWins(s: State, a: Action)
    requires Enabled(s, a) && s.child.Some?
    ensures Apply(s, a).child == s.child
  {
  }

  /** A cancellation that came from the parent is never reported as a timeout: the caller gets the inner
      reply, and the parent was indeed cancelled with that cause. */
  lemma ParentNeverRelabelled(s: State)
    requires Reachable(s) && s.child.Some? && s.child.value.Parent?
    ensures s.parent == Some(s.child.value.id)
    ensures s.caller.Returned? ==> !s.caller.outcome.DeadlineExceeded?
  {
    ReachableInv(s);
  }

  /** On return the child context is cancelled, or owned by one body wrapper that no Close has got through
      yet. The wrapper cancels at most once under any number of concurrent closes; every Close that gets past
      its sync.Once finds the context cancelled, and each closes the inner body once. */
  lemma ContextNeverLeaks(s: State)
    requires Reachable(s) && s.caller.Returned?
    ensures s.child.Some? || (s.caller.outcome.Wrapped? && forall c :: !SyncOnce.At(s.once, c, SyncOnce.Past))
    ensures s.wrapperCancels <= 1
    ensures forall c :: SyncOnce.At(s.once, c, SyncOnce.Past) ==> s.wrapperCancels == 1 && s.child.Some?
    ensures s.caller.outcome.Wrapped? ==> s.bodyCloses == |s.innerClosed|
    ensures forall c :: c in s.innerClosed ==> SyncOnce.At(s.once, c, SyncOnce.Past)
  {
    ReachableInv(s);
  }

  // ----- Timers that fire on time -----

  /** Time does not pass a due timer before its callback has ended. */
  predicate OnTime(run: seq<State>, actions: seq<Action>)
    requires |run| == |actions| + 1
  {
    forall i :: 0 <= i < |actions| && actions[i].Tick? && run[i].now >= run[i].fireAt ==> run[i].timer.Over?
  }

  lemma {:induction false} DueTimerIsOver(run: seq<State>, actions: seq<Action>, i: nat)
    requires IsRun(run, actions) && OnTime(run, actions) && i < |run|
    ensures run[i].now > run[i].fireAt ==> run[i].timer.Over?
    ensures run[i].fireAt == run[0].fireAt
  {
    if i > 0 {
      DueTimerIsOver(run, actions, i - 1);
      assert run[i - 1 + 1] == Apply(run[i - 1], actions[i - 1]);
    }
  }

  /** With timers on time, past the deadline the headers have arrived or the inner round trip has been
      cancelled: nobody waits for response headers longer than the timeout. */
  lemma WaitIsBounded(run: seq<State>, actions: seq<Action>, i: nat)
    requires IsRun(run, actions) && OnTime(run, actions) && i < |run|
    ensures run[i].now > run[0].fireAt ==> run[i].completed || run[i].child.Some?
  {
    RunInv(run, actions, i);
    DueTimerIsOver(run, actions, i);
  }

  // ----- Both outcomes happen -----

  lemma ReachableStep(s: State, a: Action)
    requires Reachable(s) && Enabled(s, a)
    ensures Reachable(Apply(s, a))
  {
    var run, actions :| IsRun(run, actions) && run[|actions|] == s;
    var run', actions' := run + [Apply(s, a)], actions + [a];
    forall i | 0 <= i < |actions'|
      ensures Enabled(run'[i], actions'[i]) && run'[i + 1] == Apply(run'[i], actions'[i])
    {
      if i < |actions| {
        assert run'[i + 1] == run[i + 1];
      }
    }
    assert IsRun(run', actions') && run'[|actions'|] == Apply(s, a);
  }

  lemma {:induction false} TicksReachable(timeout: nat, n: nat)
    requires timeout > 0
    ensures Reachable(Start(timeout, None).(now := n))
  {
    if n == 0 {
      var s := Start(timeout, None);
      assert IsRun([s], []) && [s][0] == s;
    } else {
      TicksReachable(timeout, n - 1);
      ReachableStep(Start(timeout, None).(now := n - 1), Tick);
    }
  }

  /** The deadline error has been returned at the very moment the timer was due. */
  function TimedOutAt(timeout: nat, reply: Reply): State {
    Start(timeout, None).(now := timeout, child := Some(TimedOut), completed := true, timedOut := true, timer := Over,
                          caller := Returned(reply, DeadlineExceeded), bodyCloses := if reply.body then 1 else 0)
  }

  /** For any timeout and whatever the inner round trip returns after it, there is a run that ends so. */
  lemma TimerCanWin(timeout: nat, reply: Reply)
    requires timeout > 0
    ensures Reachable(TimedOutAt(timeout, reply))
  {
    TicksReachable(timeout, timeout);
    var s0 := Start(timeout, None).(now := timeout);
    ReachableStep(s0, Fire);
    var s1 := Apply(s0, Fire);
    ReachableStep(s1, EnterCallback);
    var s2 := Apply(s1, EnterCallback);
    ReachableStep(s2, CancelChild);
    var s3 := Apply(s2, CancelChild);
    ReachableStep(s3, InnerReturns(reply));
    var s4 := Apply(s3, InnerReturns(reply));
    ReachableStep(s4, Complete);
    var s5 := Apply(s4, Complete);
    ReachableStep(s5, Finish);
    assert Apply(s5, Finish) == TimedOutAt(timeout, reply);
  }

  /** The parent was cancelled first, and the inner error went back to the caller as it was. */
  function CancelledByParent(timeout: nat, id: nat): State {
    Start(timeout, None).(parent := Some(id), child := Some(Parent(id)), completed := true, timer := Over,
                          caller := Returned(Reply(true, false), Unchanged(Reply(true, false))))
  }

  lemma ParentCanWin(timeout: nat, id: nat)
    requires timeout > 0
    ensures Reachable(CancelledByParent(timeout, id))
  {
    TicksReachable(timeout, 0);
    var s0 := Start(timeout, None).(now := 0);
    ReachableStep(s0, CancelParent(id));
    var s1 := Apply(s0, CancelParent(id));
    ReachableStep(s1, Propagate);
    var s2 := Apply(s1, Propagate);
    ReachableStep(s2, InnerReturns(Reply(true, false)));
    var s3 := Apply(s2, InnerReturns(Reply(true, false)));
    ReachableStep(s3, Complete);
    var s4 := Apply(s3, Complete);
    ReachableStep(s4, Finish);
    assert Apply(s4, Finish) == CancelledByParent(timeout, id);
  }

  /** Once the inner round trip has returned, the caller waits for nothing but a callback that is about to end. */
  lemma CallerNeverStuck(s: State)
    requires s.caller.Arrived? || s.caller.Decided?
    ensures Enabled(s, Complete) || Enabled(s, Finish) || (Enabled(s, CancelChild) && s.timer.Firing?)
  {
  }

  // ----- The code over its own variables -----

  /** What the timer callback may rely on while it holds the mutex. */
  lemma OthersKeepTimer(s: State, a: Action)
    requires Enabled(s, a) && s.timer.Firing? && !a.CancelChild?
    ensures Apply(s, a).timer.Firing?
  {
  }

  /** What the caller may rely on between its critical section and its return. */
  lemma OthersKeepCaller(s: State, a: Action)
    requires Enabled(s, a) && s.caller.Decided? && !a.Finish?
    ensures Apply(s, a).caller == s.caller
  {
  }

  predicate ActsFor(a: Action, closer: nat) {
    (a.CloseStep? || a.CancelOnClose? || a.CloseInner?) && a.closer == closer
  }

  /** What one Close of the wrapped body may rely on, the other closes included. */
  lemma OthersKeepCloser(s: State, a: Action, closer: nat)
    requires Inv(s) && Enabled(s, a) && HandedOut(s) && closer in s.once.callers && !ActsFor(a, closer)
    ensures KeptForCloser(s, Apply(s, a), closer)
  {
  }

  ghost predicate KeptForCloser(s: State, s': State, closer: nat)
    requires closer in s.once.callers
  {
    && s'.caller == s.caller
    && SyncOnce.At(s'.once, closer, s.once.callers[closer])
    && (closer in s'.innerClosed <==> closer in s.innerClosed)
    && (SyncOnce.At(s.once, closer, SyncOnce.Running) ==> s'.wrapper == s.wrapper)
    && (SyncOnce.At(s.once, closer, SyncOnce.Holding) ==> s'.once.done == s.once.done)
    && (s.child.Some? ==> s'.child == s.child)
  }

  /** The variables the round trip shares with its timer closure and its body wrapper, and how often the
      inner response body was closed. */
  class RoundTripCall {
    var completed: bool
    var timedOut: bool
    var cause: Option<Cause>
    var onceDone: bool
    var bodyCloses: nat
    ghost var m: State

    ghost predicate Valid()
      reads this
    {
      && Reachable(m)
      && completed == m.completed && timedOut == m.timedOut
      && cause == m.child && onceDone == m.once.done && bodyCloses == m.bodyCloses
    }

    constructor (timeout: nat, parentCause: Option<nat>)
      requires timeout > 0
      ensures Valid() && m == Start(timeout, parentCause)
    {
      completed, timedOut, onceDone, bodyCloses := false, false, false, 0;
      cause := if parentCause.Some? then Some(Parent(parentCause.value)) else None;
      m := Start(timeout, parentCause);
      new;
      assert IsRun([m], []) && [m][0] == m;
    }

    /** Steps of others while the timer callback holds the mutex. */
    method InterferenceWithTimer()
      requires Valid() && m.timer.Firing?
      modifies this
      ensures Valid() && m.timer.Firing?
    {
    }

    /** Steps of others while the caller is between its critical section and its return. */
    method InterferenceWithCaller()
      requires Valid() && m.caller.Decided?
      modifies this
      ensures Valid() && m.caller == old(m.caller)
    {
    }

    /** Steps of others, other closes included, between the steps of one Close. */
    method InterferenceWithCloser(ghost closer: nat)
      requires Valid() && HandedOut(m) && closer in m.once.callers
      modifies this
      ensures Valid() && KeptForCloser(old(m), m, closer)
    {
    }

    method Cancel(why: Cause)
      modifies this`cause
      ensures cause == FirstCause(old(cause), why)
    {
      if cause.None? {
        cause := Some(why);
      }
    }

    method TimerCallback()
      requires Valid() && m.timer.Fired?
      modifies this
      ensures Valid() && m.timer.Over?
      ensures old(completed) ==> timedOut == old(timedOut) && cause == old(cause)
      ensures !old(completed) ==> timedOut && cause.Some?
    {
      ReachableStep(m, EnterCallback);
      m := Apply(m, EnterCallback);
      if completed {
        return;
      }
      timedOut := true;
      InterferenceWithTimer();
      ReachableInv(m);
      ReachableStep(m, CancelChild);
      m := Apply(m, CancelChild);
      Cancel(TimedOut);
    }

    /** From the inner reply to the wrapper's outcome. */
    method Settle(reply: Reply) returns (outcome: Outcome)
      requires Valid() && m.caller == Arrived(reply) && !m.timer.Firing?
      modifies this
      ensures Valid() && m.caller == Returned(reply, outcome)
      ensures outcome == DeadlineExceeded <==> timedOut && cause == Some(TimedOut)
      ensures bodyCloses == if outcome == DeadlineExceeded && reply.body then 1 else 0
      ensures outcome != DeadlineExceeded ==> outcome == WithoutTimeout(reply)
      ensures outcome != Wrapped ==> cause.Some?
    {
      ReachableStep(m, Complete);
      m := Apply(m, Complete);
      completed := true;
      var timeoutWon := timedOut && cause == Some(TimedOut);
      InterferenceWithCaller();
      ReachableInv(m);
      ReachableStep(m, Finish);
      m := Apply(m, Finish);
      ReachableInv(m);
      if timeoutWon {
        if reply.body {
          bodyCloses := bodyCloses + 1;
        }
        return DeadlineExceeded;
      }
      if reply.failed || !reply.body {
        Cancel(Canceled);
        return Unchanged(reply);
      }
      outcome := Wrapped;
    }

    /** Close of the wrapped body, from the moment it holds the mutex of the sync.Once: cancels if no Close
        did so before, then closes the inner body. */
    method Close(ghost closer: nat)
      requires Valid() && HandedOut(m) && SyncOnce.At(m.once, closer, SyncOnce.Holding)
      modifies this
      ensures Valid() && HandedOut(m) && SyncOnce.At(m.once, closer, SyncOnce.Past)
      ensures closer !in old(m.innerClosed) && closer in m.innerClosed
      ensures cause.Some? && (old(cause).Some? ==> cause == old(cause)) && onceDone
    {
      ReachableInv(m);
      if !onceDone {
        CancelFirst(closer);
      } else {
        ReachableStep(m, CloseStep(closer, SyncOnce.SeeDone));
        m := Apply(m, CloseStep(closer, SyncOnce.SeeDone));
      }
      LeaveOnce(closer);
    }

    /** The first Close to hold the mutex runs the body and sets the flag. */
    method CancelFirst(ghost closer: nat)
      requires Valid() && HandedOut(m) && SyncOnce.At(m.once, closer, SyncOnce.Holding)
      requires !onceDone && closer !in m.innerClosed
      modifies this
      ensures Valid() && HandedOut(m) && SyncOnce.At(m.once, closer, SyncOnce.Leaving)
      ensures onceDone && closer !in m.innerClosed
      ensures cause.Some? && (old(cause).Some? ==> cause == old(cause))
    {
      ReachableInv(m);
      ReachableStep(m, CloseStep(closer, SyncOnce.Begin));
      m := Apply(m, CloseStep(closer, SyncOnce.Begin));
      InterferenceWithCloser(closer);
      CancelInOnce(closer);
      InterferenceWithCloser(closer);
      ReachableStep(m, CloseStep(closer, SyncOnce.Finish));
      m := Apply(m, CloseStep(closer, SyncOnce.Finish));
      onceDone := true;
    }

    /** The body of the sync.Once. */
    method CancelInOnce(ghost closer: nat)
      requires Valid() && Enabled(m, CancelOnClose(closer))
      modifies this`cause, this`m
      ensures Valid() && m == Apply(old(m), CancelOnClose(closer)) && cause.Some?
      ensures old(cause).Some? ==> cause == old(cause)
    {
      ReachableStep(m, CancelOnClose(closer));
      m := Apply(m, CancelOnClose(closer));
      Cancel(Canceled);
    }

    /** From the end of the sync.Once to the end of Close. */
    method LeaveOnce(ghost closer: nat)
      requires Valid() && HandedOut(m) && SyncOnce.At(m.once, closer, SyncOnce.Leaving) && closer !in m.innerClosed
      modifies this
      ensures Valid() && HandedOut(m) && SyncOnce.At(m.once, closer, SyncOnce.Past) && closer in m.innerClosed
      ensures cause.Some? && (old(cause).Some? ==> cause == old(cause)) && onceDone
    {
      InterferenceWithCloser(closer);
      ReachableStep(m, CloseStep(closer, SyncOnce.Release));
      m := Apply(m, CloseStep(closer, SyncOnce.Release));
      InterferenceWithCloser(closer);
      ReachableInv(m);
      ReachableStep(m, CloseInner(closer));
      m := Apply(m, CloseInner(closer));
      bodyCloses := bodyCloses + 1;
    }
  }
}
