/**
 One time budget per request, fixed on entry and shared by authentication, every authorization call and
 the wait for upstream response headers. Times are discrete; a Go zero time or nil cause is None.
 */
module TimeoutBudget {
  import opened Wrappers
  import UpstreamTimeout

  datatype Budget = Budget(auth: Option<int>, upstream: Option<int>)

  datatype Cause = DeadlineExceeded | Cancelled(id: nat)

  /** A request context: the budget it carries, its own deadline, and when and why it is cancelled. */
  datatype Context = Context(budget: Option<Budget>, deadline: Option<int>, cancelledAt: Option<int>, reason: nat)

  function NewBudget(start: int, upstreamTimeout: int, authTimeout: int): Budget {
    var upstream := if upstreamTimeout > 0 then Some(start + upstreamTimeout) else None;
    var auth := if authTimeout > 0 then Some(start + authTimeout) else None;
    Budget(if upstream.Some? && (auth.None? || upstream.value < auth.value) then upstream else auth, upstream)
  }

  /** Least: no enabled limit ends earlier, and it is one of them. */
  predicate IsLeastDeadline(deadline: Option<int>, start: int, timeouts: seq<int>) {
    && (deadline.None? <==> forall i :: 0 <= i < |timeouts| ==> timeouts[i] <= 0)
    && (deadline.Some? ==>
          && (exists i :: 0 <= i < |timeouts| && timeouts[i] > 0 && deadline.value == start + timeouts[i])
          && (forall i :: 0 <= i < |timeouts| && timeouts[i] > 0 ==> deadline.value <= start + timeouts[i]))
  }

  /** The upstream deadline is the upstream limit's; the auth deadline is the least enabled limit's, so it is
      never after the upstream deadline. */
  method NewRequestTimeoutBudget(start: int, upstreamTimeout: int, authTimeout: int) returns (budget: Budget)
    ensures IsLeastDeadline(budget.upstream, start, [upstreamTimeout])
    ensures IsLeastDeadline(budget.auth, start, [upstreamTimeout, authTimeout])
    ensures budget == NewBudget(start, upstreamTimeout, authTimeout)
  {
    budget := Budget(None, None);
    if upstreamTimeout > 0 {
      budget := budget.(upstream := Some(start + upstreamTimeout));
    }
    if authTimeout > 0 {
      budget := budget.(auth := Some(start + authTimeout));
    }
    if budget.upstream.Some? && (budget.auth.None? || budget.upstream.value < budget.auth.value) {
      budget := budget.(auth := budget.upstream);
    }
    AuthDeadlineIsMinimum(start, upstreamTimeout, authTimeout);
  }

  /** The deadlines are the least enabled ones, which determines them. */
  lemma AuthDeadlineIsMinimum(start: int, upstreamTimeout: int, authTimeout: int)
    ensures var b := NewBudget(start, upstreamTimeout, authTimeout);
            && IsLeastDeadline(b.upstream, start, [upstreamTimeout])
            && IsLeastDeadline(b.auth, start, [upstreamTimeout, authTimeout])
            && (b.upstream.Some? ==> b.auth.Some? && b.auth.value <= b.upstream.value)
    ensures forall d: Option<int> :: IsLeastDeadline(d, start, [upstreamTimeout, authTimeout]) ==>
              d == NewBudget(start, upstreamTimeout, authTimeout).auth
  {
    var timeouts := [upstreamTimeout, authTimeout];
    assert timeouts[0] == upstreamTimeout && timeouts[1] == authTimeout;
    assert [upstreamTimeout][0] == upstreamTimeout;
  }

  /** The handler wrapper: the first enabled one on the way in fixes the budget. */
  function WithRequestTimeouts(ctx: Context, now: int, upstreamTimeout: int, authTimeout: int): Context {
    if upstreamTimeout <= 0 && authTimeout <= 0 then ctx
    else if ctx.budget.Some? then ctx
    else ctx.(budget := Some(NewBudget(now, upstreamTimeout, authTimeout)))
  }

  /** A wrapper around the handler: when its turn comes, and its limits. */
  datatype Wrapper = Wrapper(at: int, upstreamTimeout: int, authTimeout: int)

  predicate Limits(w: Wrapper) {
    w.upstreamTimeout > 0 || w.authTimeout > 0
  }

  /** The context below any number of nested wrappers, the outermost first. */
  function Below(ctx: Context, wrappers: seq<Wrapper>): Context
    decreases |wrappers|
  {
    if wrappers == [] then ctx
    else
      var w := wrappers[0];
      Below(WithRequestTimeouts(ctx, w.at, w.upstreamTimeout, w.authTimeout), wrappers[1..])
  }

  lemma {:induction false} BudgetStays(ctx: Context, wrappers: seq<Wrapper>)
    requires ctx.budget.Some?
    ensures Below(ctx, wrappers) == ctx
  {
    if wrappers != [] {
      BudgetStays(ctx, wrappers[1..]);
    }
  }

  /** Without a limit anywhere no budget is set. */
  lemma {:induction false} NoLimitNoBudget(ctx: Context, wrappers: seq<Wrapper>)
    requires forall k :: 0 <= k < |wrappers| ==> !Limits(wrappers[k])
    ensures Below(ctx, wrappers) == ctx
  {
    if wrappers != [] {
      NoLimitNoBudget(ctx, wrappers[1..]);
    }
  }

  /** However deep the wrappers nest, the outermost one with a limit fixes the budget once for all. */
  lemma {:induction false} OutermostBudgetWins(ctx: Context, wrappers: seq<Wrapper>, i: nat)
    requires ctx.budget.None? && i < |wrappers| && Limits(wrappers[i])
    requires forall k :: 0 <= k < i ==> !Limits(wrappers[k])
    ensures var w := wrappers[i];
            Below(ctx, wrappers) == ctx.(budget := Some(NewBudget(w.at, w.upstreamTimeout, w.authTimeout)))
  {
    var w := wrappers[0];
    if i == 0 {
      BudgetStays(WithRequestTimeouts(ctx, w.at, w.upstreamTimeout, w.authTimeout), wrappers[1..]);
    } else {
      OutermostBudgetWins(ctx, wrappers[1..], i - 1);
    }
  }

  // ----- Deadlines on authentication and authorization -----

  function Earlier(a: Option<int>, b: int): Option<int> {
    if a.Some? && a.value < b then a else Some(b)
  }

  /** context.Cause at time t: the first of deadline and cancellation. */
  function CauseAt(ctx: Context, t: int): Option<Cause> {
    var expired := ctx.deadline.Some? && ctx.deadline.value <= t;
    var cancelled := ctx.cancelledAt.Some? && ctx.cancelledAt.value <= t;
    if cancelled && !(expired && ctx.deadline.value <= ctx.cancelledAt.value) then Some(Cancelled(ctx.reason))
    else if expired then Some(DeadlineExceeded)
    else None
  }

  /** A context that has ended keeps its cause, whatever happens later. */
  lemma CauseIsFirst(ctx: Context, t: int, t': int)
    requires t <= t' && CauseAt(ctx, t).Some?
    ensures CauseAt(ctx, t') == CauseAt(ctx, t)
  {
  }

  predicate Limited(ctx: Context, timeout: int) {
    (ctx.budget.Some? && ctx.budget.value.auth.Some?) || timeout > 0
  }

  function WithAuthDeadline(ctx: Context, now: int, timeout: int): Context {
    if ctx.budget.Some? && ctx.budget.value.auth.Some? then
      ctx.(deadline := Earlier(ctx.deadline, ctx.budget.value.auth.value))
    else if timeout > 0 then ctx.(deadline := Earlier(ctx.deadline, now + timeout))
    else ctx
  }

  /** Both wrappers: a success that arrives after the derived context expired becomes that context's cause. */
  function Guarded<T>(ctx: Context, began: int, ended: int, timeout: int, reply: Result<T, Cause>): Result<T, Cause> {
    var derived := WithAuthDeadline(ctx, began, timeout);
    if Limited(ctx, timeout) && reply.Ok? && CauseAt(derived, ended).Some? then Err(CauseAt(derived, ended).value)
    else reply
  }

  /** All calls made with one request context get the same deadline, however late they begin. */
  lemma SharedDeadline(ctx: Context, t: int, t': int, timeout: int, timeout': int)
    requires ctx.budget.Some? && ctx.budget.value.auth.Some?
    ensures WithAuthDeadline(ctx, t, timeout) == WithAuthDeadline(ctx, t', timeout')
    ensures WithAuthDeadline(ctx, t, timeout).deadline.Some?
    ensures var deadline := WithAuthDeadline(ctx, t, timeout).deadline.value;
            && deadline <= ctx.budget.value.auth.value
            && (ctx.deadline.Some? ==> deadline <= ctx.deadline.value)
            && (deadline == ctx.budget.value.auth.value || ctx.deadline == Some(deadline))
  {
  }

  /** Errors pass unchanged and successes pass exactly when the derived context is still live at the end. */
  lemma LateSuccessNeverPasses<T>(ctx: Context, began: int, ended: int, timeout: int, reply: Result<T, Cause>)
    ensures Guarded(ctx, began, ended, timeout, reply).Ok?
            <==> reply.Ok? && (Limited(ctx, timeout) ==> CauseAt(WithAuthDeadline(ctx, began, timeout), ended).None?)
    ensures reply.Err? ==> Guarded(ctx, began, ended, timeout, reply) == reply
    ensures Guarded(ctx, began, ended, timeout, reply).Ok? ==> Guarded(ctx, began, ended, timeout, reply) == reply
  {
  }

  /** Why a context with this deadline and cancellation has ended by time t: whichever came first. */
  predicate EndedBy(deadline: Option<int>, cancelledAt: Option<int>, reason: nat, t: int, cause: Cause) {
    match cause
    case DeadlineExceeded =>
      && deadline.Some? && deadline.value <= t
      && (cancelledAt.Some? && cancelledAt.value <= t ==> deadline.value <= cancelledAt.value)
    case Cancelled(id) =>
      && cancelledAt.Some? && cancelledAt.value <= t && id == reason
      && (deadline.Some? && deadline.value <= t ==> cancelledAt.value < deadline.value)
  }

  /** The limit of one call: the shared auth deadline, else its own timeout from when it begins. */
  predicate IsLimit(ctx: Context, began: int, timeout: int, limit: Option<int>) {
    if ctx.budget.Some? && ctx.budget.value.auth.Some? then limit == ctx.budget.value.auth
    else if timeout > 0 then limit == Some(began + timeout)
    else limit == None
  }

  /** A success is replaced by an error if and only if the call is limited and its context has ended by the time
      the call does, by the earlier of its deadline, which is the least of the limit and the request's own, and
      the cancellation of the request; the error is that cause, so a cancelled request is never reported as a
      timeout nor the other way round. */
  lemma LateSuccessCause<T>(ctx: Context, began: int, ended: int, timeout: int, value: T,
                            limit: Option<int>, cause: Cause)
    requires IsLimit(ctx, began, timeout, limit)
    ensures Guarded(ctx, began, ended, timeout, Ok(value)) == Err(cause)
            <==> limit.Some? &&
                 var deadline := if ctx.deadline.Some? && ctx.deadline.value < limit.value then ctx.deadline else limit;
                 EndedBy(deadline, ctx.cancelledAt, ctx.reason, ended, cause)
  {
  }

  // ----- The whole request -----

  /** One authentication or authorization call: idle time before it, its duration, whether it grants. */
  datatype Call = Call(gap: nat, duration: nat, reply: Result<bool, Cause>)

  /** Runs the calls one after another; the time at which the last one granted, if all did in time. */
  function AuthPhase(ctx: Context, t: int, timeout: int, calls: seq<Call>): Option<int>
    decreases |calls|
  {
    if calls == [] then Some(t)
    else
      var began := t + calls[0].gap;
      var ended := began + calls[0].duration;
      var reply := Guarded(ctx, began, ended, timeout, calls[0].reply);
      if reply == Ok(true) then AuthPhase(ctx, ended, timeout, calls[1..]) else None
  }

  /** When the k-th call begins and ends, if the calls before it all return. */
  function Begins(t: int, calls: seq<Call>, k: nat): int
    requires k < |calls|
    decreases k
  {
    if k == 0 then t + calls[0].gap else Begins(t + calls[0].gap + calls[0].duration, calls[1..], k - 1)
  }

  function Ends(t: int, calls: seq<Call>, k: nat): int
    requires k < |calls|
  {
    Begins(t, calls, k) + calls[k].duration
  }

  /** A granted call counts if its context, when it has a deadline at all, is live when the call ends. */
  predicate GrantedInTime(ctx: Context, t: int, timeout: int, calls: seq<Call>, k: nat)
    requires k < |calls|
  {
    && calls[k].reply == Ok(true)
    && (Limited(ctx, timeout) ==>
          CauseAt(WithAuthDeadline(ctx, Begins(t, calls, k), timeout), Ends(t, calls, k)).None?)
  }

  /** The auth phase passes if and only if every one of its calls is granted before its context expires, and
      it then ends with the last call: no late success is ever passed on, whichever call it is. */
  lemma {:induction false} AuthPhasePassesIff(ctx: Context, t: int, timeout: int, calls: seq<Call>)
    ensures AuthPhase(ctx, t, timeout, calls).Some?
            <==> forall k :: 0 <= k < |calls| ==> GrantedInTime(ctx, t, timeout, calls, k)
    ensures AuthPhase(ctx, t, timeout, calls).Some? ==>
              AuthPhase(ctx, t, timeout, calls).value == if calls == [] then t else Ends(t, calls, |calls| - 1)
    decreases |calls|
  {
    if calls != [] {
      var began := t + calls[0].gap;
      var ended := began + calls[0].duration;
      var rest := calls[1..];
      LateSuccessNeverPasses(ctx, began, ended, timeout, calls[0].reply);
      AuthPhasePassesIff(ctx, ended, timeout, rest);
      assert GrantedInTime(ctx, t, timeout, calls, 0)
          <==> Guarded(ctx, began, ended, timeout, calls[0].reply) == Ok(true);
      forall k | 0 < k < |calls|
        ensures GrantedInTime(ctx, t, timeout, calls, k) == GrantedInTime(ctx, ended, timeout, rest, k - 1)
      {
        assert rest[k - 1] == calls[k];
      }
      assert forall k :: 0 <= k < |rest| ==>
          GrantedInTime(ctx, ended, timeout, rest, k) == GrantedInTime(ctx, t, timeout, calls, k + 1);
    }
  }

  /** A request that passes authentication and any number of authorizations does so before the shared
      auth deadline, hence with upstream time left. */
  lemma {:induction false} AuthPhaseMeetsDeadline(ctx: Context, t: int, timeout: int, calls: seq<Call>)
    requires ctx.budget.Some? && ctx.budget.value.auth.Some? && calls != []
    requires AuthPhase(ctx, t, timeout, calls).Some?
    ensures AuthPhase(ctx, t, timeout, calls).value < ctx.budget.value.auth.value
    decreases |calls|
  {
    var began := t + calls[0].gap;
    var ended := began + calls[0].duration;
    LateSuccessNeverPasses(ctx, began, ended, timeout, calls[0].reply);
    SharedDeadline(ctx, began, began, timeout, timeout);
    if |calls| > 1 {
      AuthPhaseMeetsDeadline(ctx, ended, timeout, calls[1..]);
    }
  }

  datatype Admission = Direct | Refused(cause: Cause) | Timed(timeout: int)

  /** How the transport starts: without a limit, refused before it begins, or under a timer. */
  function Admit(ctx: Context, now: int, upstreamTimeout: int): Admission {
    if upstreamTimeout <= 0 then Direct
    else
      var timeout := if ctx.budget.Some? && ctx.budget.value.upstream.Some? then ctx.budget.value.upstream.value - now
                     else upstreamTimeout;
      if timeout > 0 then Timed(timeout)
      else if CauseAt(ctx, now).Some? then Refused(CauseAt(ctx, now).value)
      else Refused(DeadlineExceeded)
  }

  /** All contexts, times and limits: without an upstream limit there is no timer; with one the request is
      refused exactly when no time is left, with the cause its context ended by or else the deadline, and
      otherwise timed with exactly what is left. */
  lemma AdmissionMeaning(ctx: Context, now: int, upstreamTimeout: int)
    ensures var left := if ctx.budget.Some? && ctx.budget.value.upstream.Some?
                        then ctx.budget.value.upstream.value - now else upstreamTimeout;
            var admission := Admit(ctx, now, upstreamTimeout);
            && (admission == Direct <==> upstreamTimeout <= 0)
            && (admission.Refused? <==> upstreamTimeout > 0 && left <= 0)
            && (admission.Timed? <==> upstreamTimeout > 0 && left > 0)
            && (admission.Timed? ==> admission.timeout == left)
            && (admission.Refused? ==>
                  if exists cause :: EndedBy(ctx.deadline, ctx.cancelledAt, ctx.reason, now, cause)
                  then EndedBy(ctx.deadline, ctx.cancelledAt, ctx.reason, now, admission.cause)
                  else admission.cause == DeadlineExceeded)
  {
    if CauseAt(ctx, now).Some? {
      assert EndedBy(ctx.deadline, ctx.cancelledAt, ctx.reason, now, CauseAt(ctx, now).value);
    }
  }

  /** Whenever the transport is reached, after authentication and authorizations or without any on an ignored
      path, the upstream is tried if and only if budget is left, and then with exactly what is left; a request
      that ran out on the way is refused. */
  lemma AdmittedIffBudgetLeft(ctx: Context, start: int, upstreamTimeout: int, authTimeout: int, t: int)
    requires ctx.budget.None? && upstreamTimeout > 0
    ensures var admission := Admit(WithRequestTimeouts(ctx, start, upstreamTimeout, authTimeout), t, upstreamTimeout);
            && (admission.Timed? <==> t < start + upstreamTimeout)
            && (admission.Timed? ==> admission.timeout == start + upstreamTimeout - t)
            && (!admission.Timed? ==>
                  admission == Refused(if CauseAt(ctx, t).Some? then CauseAt(ctx, t).value else DeadlineExceeded))
  {
  }

  /** A request that passes its auth phase does so with budget left, and after any gap in front of the
      transport it is tried if and only if the gap is shorter than what was left. */
  lemma PassingRequestIsAdmitted(ctx: Context, start: int, upstreamTimeout: int, authTimeout: int,
                                 calls: seq<Call>, gap: nat)
    requires ctx.budget.None? && upstreamTimeout > 0
    requires AuthPhase(WithRequestTimeouts(ctx, start, upstreamTimeout, authTimeout), start, authTimeout, calls).Some?
    ensures var entered := WithRequestTimeouts(ctx, start, upstreamTimeout, authTimeout);
            var done := AuthPhase(entered, start, authTimeout, calls).value;
            var left := start + upstreamTimeout - done;
            && left > 0
            && (Admit(entered, done + gap, upstreamTimeout) == Timed(left - gap) <==> gap < left)
            && (Admit(entered, done + gap, upstreamTimeout).Refused? <==> gap >= left)
  {
    var entered := WithRequestTimeouts(ctx, start, upstreamTimeout, authTimeout);
    if calls != [] {
      AuthPhaseMeetsDeadline(entered, start, authTimeout, calls);
    }
    AuthDeadlineIsMinimum(start, upstreamTimeout, authTimeout);
    AdmittedIffBudgetLeft(ctx, start, upstreamTimeout, authTimeout,
                          AuthPhase(entered, start, authTimeout, calls).value + gap);
  }

  /** End to end, with timers on time: whenever and after whatever calls a request that entered at `start`
      reaches the upstream, nobody waits for its response headers after start plus the upstream timeout. */
  lemma TotalWaitIsBounded(ctx: Context, start: int, upstreamTimeout: int, authTimeout: int, t: int,
                           run: seq<UpstreamTimeout.State>, actions: seq<UpstreamTimeout.Action>, i: nat)
    requires ctx.budget.None? && upstreamTimeout > 0
    requires UpstreamTimeout.IsRun(run, actions) && UpstreamTimeout.OnTime(run, actions) && i < |run|
    requires Admit(WithRequestTimeouts(ctx, start, upstreamTimeout, authTimeout), t, upstreamTimeout)
             == Timed(run[0].fireAt)
    ensures t + run[i].now > start + upstreamTimeout ==> run[i].completed || run[i].child.Some?
  {
    AdmittedIffBudgetLeft(ctx, start, upstreamTimeout, authTimeout, t);
    UpstreamTimeout.WaitIsBounded(run, actions, i);
  }
}
