/**
 The lock-free rate limit on operational log lines: a clock read, an atomic load and a compare-and-swap
 per report call, interleaved by any number of callers. Times are Unix nanoseconds.
 */
module ReportLimiter {

  const SECOND := 1_000_000_000

  datatype Pc = Clocked(now: int) | Loaded(now: int, last: int) | Finished(reported: bool)

  datatype State = State(lastReport: int, stamps: seq<int>, calls: map<nat, Pc>)

  const START := State(0, [], map[])

  datatype Action = ReadClock(r: nat, now: int) | Load(r: nat) | Swap(r: nat)

  predicate Enabled(s: State, a: Action) {
    match a
    case ReadClock(r, _) => r !in s.calls
    case Load(r) => r in s.calls && s.calls[r].Clocked?
    case Swap(r) => r in s.calls && s.calls[r].Loaded?
  }

  function Apply(s: State, a: Action): State
    requires Enabled(s, a)
  {
    match a
    case ReadClock(r, now) => s.(calls := s.calls[r := Clocked(now)])
    case Load(r) =>
      var now := s.calls[r].now;
      if s.lastReport != 0 && now - s.lastReport < SECOND then s.(calls := s.calls[r := Finished(false)])
      else s.(calls := s.calls[r := Loaded(now, s.lastReport)])
    case Swap(r) =>
      var pc := s.calls[r];
      if s.lastReport == pc.last then State(pc.now, s.stamps + [pc.now], s.calls[r := Finished(true)])
      else s.(calls := s.calls[r := Finished(false)])
  }

  /** The states after each action of a list, ending in the given state. */
  ghost predicate Leads(actions: seq<Action>, s: State)
    decreases |actions|
  {
    if actions == [] then s == START
    else
      var a := actions[|actions| - 1];
      exists before :: Leads(actions[..|actions| - 1], before) && Enabled(before, a) && s == Apply(before, a)
  }

  /** Every clock reading is one of the given ones. */
  ghost predicate Reads(actions: seq<Action>, clocks: iset<int>) {
    forall i :: 0 <= i < |actions| && actions[i].ReadClock? ==> actions[i].now in clocks
  }

  predicate SpacedOut(stamps: seq<int>) {
    forall i, j :: 0 <= i < j < |stamps| ==> stamps[j] - stamps[i] >= (j - i) * SECOND
  }

  ghost predicate Inv(s: State) {
    && s.lastReport == (if s.stamps == [] then 0 else s.stamps[|s.stamps| - 1])
    && (forall i :: 0 <= i < |s.stamps| ==> s.stamps[i] != 0)
    && (forall i :: 0 < i < |s.stamps| ==> s.stamps[i] - s.stamps[i - 1] >= SECOND)
    && (forall r :: r in s.calls && s.calls[r].Clocked? ==> s.calls[r].now != 0)
    && (forall r :: r in s.calls && s.calls[r].Loaded? ==>
          s.calls[r].now != 0 && (s.calls[r].last == 0 || s.calls[r].now - s.calls[r].last >= SECOND))
  }

  lemma ReadClockKeepsInv(s: State, r: nat, now: int)
    requires Inv(s) && r !in s.calls && now != 0
    ensures Inv(Apply(s, ReadClock(r, now)))
  {
  }

  lemma LoadKeepsInv(s: State, r: nat)
    requires Inv(s) && Enabled(s, Load(r))
    ensures Inv(Apply(s, Load(r)))
  {
  }

  ghost const NON_ZERO: iset<int> := iset t: int | t != 0

  /** A swap that wins found the stamp it loaded, so its clock is a second past the newest stamp. */
  lemma SwapKeepsInv(s: State, r: nat)
    requires Inv(s) && Enabled(s, Swap(r))
    ensures Inv(Apply(s, Swap(r)))
  {
    var s' := Apply(s, Swap(r));
    assert s'.stamps == s.stamps || s'.stamps == s.stamps + [s.calls[r].now];
  }

  lemma {:induction false} RunInv(actions: seq<Action>, s: State)
    requires Leads(actions, s) && Reads(actions, NON_ZERO)
    ensures Inv(s)
    decreases |actions|
  {
    if actions != [] {
      var init, a := actions[..|actions| - 1], actions[|actions| - 1];
      var before :| Leads(init, before) && Enabled(before, a) && s == Apply(before, a);
      RunInv(init, before);
      match a
      case ReadClock(r, now) => ReadClockKeepsInv(before, r, now);
      case Load(r) => LoadKeepsInv(before, r);
      case Swap(r) => SwapKeepsInv(before, r);
    }
  }

  lemma {:induction false} Spaced(stamps: seq<int>, i: nat, j: nat)
    requires i <= j < |stamps|
    requires forall k :: 0 < k < |stamps| ==> stamps[k] - stamps[k - 1] >= SECOND
    ensures stamps[j] - stamps[i] >= (j - i) * SECOND
  {
    if i < j {
      Spaced(stamps, i, j - 1);
    }
  }

  /** Under every interleaving with non-zero clock readings, n reports after another one take at least n
      seconds, even when callers' clocks disagree, step back or read before the epoch. */
  lemma ReportsSpaced(actions: seq<Action>, s: State)
    requires Leads(actions, s) && Reads(actions, NON_ZERO)
    ensures SpacedOut(s.stamps)
  {
    RunInv(actions, s);
    forall i, j | 0 <= i < j < |s.stamps|
      ensures s.stamps[j] - s.stamps[i] >= (j - i) * SECOND
    {
      Spaced(s.stamps, i, j);
    }
  }

  ghost predicate AlwaysSpaced(clocks: iset<int>) {
    forall actions, s :: Leads(actions, s) && Reads(actions, clocks) ==> SpacedOut(s.stamps)
  }

  /** The limit holds over every run exactly when no clock reads zero, which also stands for no report yet. */
  lemma SpacedIffNoZeroClock(clocks: iset<int>)
    ensures AlwaysSpaced(clocks) <==> 0 !in clocks
  {
    if 0 in clocks {
      var actions, s := ZeroClockDisablesLimit();
      assert Reads(actions, clocks);
    } else {
      forall actions, s | Leads(actions, s) && Reads(actions, clocks)
        ensures SpacedOut(s.stamps)
      {
        ReportsSpaced(actions, s);
      }
    }
  }

  /** The three steps of one call with nothing in between. */
  function Alone(s: State, r: nat, now: int): State
    requires r !in s.calls
  {
    var loaded := Apply(Apply(s, ReadClock(r, now)), Load(r));
    if loaded.calls[r].Loaded? then Apply(loaded, Swap(r)) else loaded
  }

  /** The limit withholds no more than it has to: an uncontended call reports if and only if nothing was
      reported yet or the last report is a second old. */
  lemma UncontendedReportsIff(s: State, r: nat, now: int)
    requires r !in s.calls
    ensures Alone(s, r, now).calls[r] == Finished(s.lastReport == 0 || now - s.lastReport >= SECOND)
    ensures Alone(s, r, now).stamps == s.stamps + (if Alone(s, r, now).calls[r].reported then [now] else [])
  {
  }

  /** A clock that reads zero disables the limit: zero also means that nothing was reported yet. */
  lemma ZeroClockDisablesLimit() returns (actions: seq<Action>, s: State)
    ensures Leads(actions, s) && s.stamps == [0, 0] && !SpacedOut(s.stamps)
    ensures Reads(actions, iset{0})
  {
    actions := [ReadClock(0, 0), Load(0), Swap(0), ReadClock(1, 0), Load(1), Swap(1)];
    var s1 := Apply(START, ReadClock(0, 0));
    var s2 := Apply(s1, Load(0));
    var s3 := Apply(s2, Swap(0));
    var s4 := Apply(s3, ReadClock(1, 0));
    var s5 := Apply(s4, Load(1));
    var s6 := Apply(s5, Swap(1));
    assert Leads(actions[..0], START);
    LeadsStep(actions, 0, START, s1);
    LeadsStep(actions, 1, s1, s2);
    LeadsStep(actions, 2, s2, s3);
    LeadsStep(actions, 3, s3, s4);
    LeadsStep(actions, 4, s4, s5);
    LeadsStep(actions, 5, s5, s6);
    assert actions[..6] == actions;
    s := s6;
    assert s.stamps == [0, 0] && s.stamps[1] - s.stamps[0] == 0;
  }

  lemma LeadsStep(actions: seq<Action>, k: nat, s: State, s': State)
    requires k < |actions| && Leads(actions[..k], s)
    requires Enabled(s, actions[k]) && s' == Apply(s, actions[k])
    ensures Leads(actions[..k + 1], s')
  {
    assert actions[..k + 1][..k] == actions[..k];
  }

  ghost predicate Reachable(s: State) {
    exists actions :: Leads(actions, s)
  }

  lemma ReachableStep(s: State, a: Action)
    requires Reachable(s) && Enabled(s, a)
    ensures Reachable(Apply(s, a))
  {
    var actions :| Leads(actions, s);
    var longer := actions + [a];
    assert longer[..|actions|] == actions && longer[..|actions| + 1] == longer;
    LeadsStep(longer, |actions|, s, Apply(s, a));
  }

  /** What a call may rely on: others do not move it, and stamps are only added. */
  lemma OthersKeepCall(s: State, a: Action, r: nat)
    requires Enabled(s, a) && r in s.calls && a.r != r
    ensures r in Apply(s, a).calls && Apply(s, a).calls[r] == s.calls[r]
    ensures s.stamps <= Apply(s, a).stamps
  {
  }

  /** The method over its atomic field; other callers may run between its steps. */
  class Reporter {
    var lastReport: int
    ghost var m: State

    ghost predicate Valid()
      reads this
    {
      Reachable(m) && lastReport == m.lastReport
    }

    constructor ()
      ensures Valid() && m == START
    {
      lastReport := 0;
      m := START;
      new;
      assert Leads([], START);
    }

    /** Any number of steps of other calls. */
    method Interference(ghost r: nat)
      requires Valid() && r in m.calls
      modifies this
      ensures Valid() && old(m.stamps) <= m.stamps
      ensures r in m.calls && m.calls[r] == old(m.calls[r])
    {
    }

    /** Reports exactly when its swap wins; a report becomes the newest stamp. */
    method Report(ghost r: nat, now: int) returns (reported: bool)
      requires Valid() && r !in m.calls
      modifies this
      ensures Valid() && old(m.stamps) <= m.stamps
      ensures r in m.calls && m.calls[r] == Finished(reported)
      ensures reported ==> lastReport == now && m.stamps != [] && m.stamps[|m.stamps| - 1] == now
    {
      ReachableStep(m, ReadClock(r, now));
      m := Apply(m, ReadClock(r, now));
      Interference(r);
      var last := lastReport;
      ReachableStep(m, Load(r));
      m := Apply(m, Load(r));
      if last != 0 && now - last < SECOND {
        return false;
      }
      Interference(r);
      reported := lastReport == last;
      ReachableStep(m, Swap(r));
      m := Apply(m, Swap(r));
      if reported {
        lastReport := now;
      }
    }
  }
}
