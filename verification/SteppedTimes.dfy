/**
  The stepped test clock itself: timer objects that are changed, fired and disposed in place
  (apps/dotnet-shared/PPVPN.App.Core.Tests/TestHost.cs), against the scheduler of SteppedClock.
  A callback creates, changes and disposes any timers of the clock.
 */
module SteppedTimes {
  import opened Wrappers
  import opened SteppedClock

  // ---- What changing and disposing do to the clock's value ---------------------

  /** The given timer is due `wait` from now, or not at all. */
  function Changed(c: Clock, id: nat, wait: Option<int>, period: Option<int>): Clock {
    var due := if wait.None? then None else Some(c.now + wait.value);
    c.(timers := seq(|c.timers|, i requires 0 <= i < |c.timers| => if c.timers[i].id == id then Timer(id, due, period) else c.timers[i]))
  }

  function Without(timers: seq<Timer>, id: nat): seq<Timer> {
    if timers == [] then []
    else if timers[0].id == id then timers[1..]
    else [timers[0]] + Without(timers[1..], id)
  }

  lemma {:induction false} WithoutAt(timers: seq<Timer>, i: nat, id: nat)
    requires i < |timers| ==> timers[i].id == id
    requires i <= |timers| && forall j :: 0 <= j < i ==> timers[j].id != id
    ensures Without(timers, id) == if i < |timers| then timers[..i] + timers[i + 1..] else timers
  {
    if i > 0 {
      WithoutAt(timers[1..], i - 1, id);
      assert timers == [timers[0]] + timers[1..];
      if i < |timers| {
        assert timers[..i] + timers[i + 1..] == [timers[0]] + (timers[1..][..i - 1] + timers[1..][i..]);
      }
    }
  }

  /** Removing a timer leaves nothing of what it was. */
  lemma {:induction false} WithoutForgets(before: seq<Timer>, after: seq<Timer>, id: nat)
    requires |before| == |after| && DistinctIds(before)
    requires forall i :: 0 <= i < |before| ==> before[i].id == after[i].id && (before[i].id != id ==> before[i] == after[i])
    ensures Without(before, id) == Without(after, id)
  {
    if before != [] {
      if before[0].id == id {
        assert before[1..] == after[1..];
      } else {
        WithoutForgets(before[1..], after[1..], id);
      }
    }
  }

  lemma {:induction false} WithoutIsGone(timers: seq<Timer>, id: nat)
    requires DistinctIds(timers)
    ensures forall t :: t in Without(timers, id) <==> t in timers && t.id != id
  {
    if timers != [] {
      assert forall t :: t in timers <==> t == timers[0] || t in timers[1..];
      WithoutIsGone(timers[1..], id);
    }
  }

  lemma {:induction false} AdvancingKeepsTheTimers(c: Clock, end: int, n: nat, r: Clock)
    requires Advances(QUIET, c, end, n, r)
    ensures |r.timers| == |c.timers|
    ensures forall i :: 0 <= i < |c.timers| ==> r.timers[i].id == c.timers[i].id && r.timers[i].period == c.timers[i].period
    decreases n
  {
    var next := NextDue(c.timers, end);
    if next.Some? {
      AdvancingKeepsTheTimers(Fire(QUIET, c, next.value), end, n - 1, r);
    }
  }

  /** Advancing in two steps or in one leaves the same clock. */
  lemma {:induction false} AdvancedIsAdditive(c: Clock, first: int, second: int)
    requires PeriodsArePositive(c.timers) && first <= second
    ensures PeriodsArePositive(Advanced(c, first).timers) && Advanced(Advanced(c, first), second) == Advanced(c, second)
  {
    var mid := Advanced(c, first);
    var n, k := TotalDue(c.timers, first), TotalDue(c.timers, second);
    AdvancingKeepsTheTimers(c, first, n, mid);
    var m := TotalDue(mid.timers, second);
    AdvancingIsAdditive(QUIET, c, first, n, mid, second, m, Advanced(mid, second));
    AdvancesOneWay(QUIET, c, second, k, Advanced(c, second), n + m, Advanced(mid, second));
  }

  // ---- What callbacks do ----------------------------------------------------------

  datatype Action =
    | Create(wait: Option<int>, every: Option<int>)
    | Change(id: nat, wait: Option<int>, every: Option<int>)
    | Dispose(id: nat)

  function Did(a: Action, c: Clock): Clock {
    match a
    case Create(wait, every) =>
      var due := if wait.None? then None else Some(c.now + wait.value);
      c.(timers := c.timers + [Timer(c.issued, due, every)], issued := c.issued + 1)
    case Change(id, wait, every) => Changed(c, id, wait, every)
    case Dispose(id) => c.(timers := Without(c.timers, id))
  }

  lemma ChangedLast(c: Clock, id: nat, wait: Option<int>, every: Option<int>)
    requires forall i :: 0 <= i < |c.timers| ==> c.timers[i].id != id
    ensures Changed(c.(timers := c.timers + [Timer(id, None, None)]), id, wait, every).timers
         == c.timers + [Timer(id, if wait.None? then None else Some(c.now + wait.value), every)]
  {
  }

  lemma OneMoreAction(actions: seq<Action>, i: nat, c: Clock)
    requires i < |actions|
    ensures DidAll(actions[..i + 1], c) == Did(actions[i], DidAll(actions[..i], c))
  {
    assert actions[..i + 1][..i] == actions[..i];
  }

  function DidAll(actions: seq<Action>, c: Clock): Clock {
    if actions == [] then c else Did(actions[|actions| - 1], DidAll(actions[..|actions| - 1], c))
  }

  /** What each timer's callback does, going by the clock it sees. */
  type Script = (nat, Clock) -> seq<Action>

  function CallbackOf(script: Script): Callback {
    (id: nat, c: Clock) => DidAll(script(id, c), c)
  }

  /** Nothing is asked for a time gone by. */
  predicate AsksAhead(a: Action) {
    match a
    case Create(wait, every) => (wait.Some? ==> wait.value >= 0) && (every.Some? ==> every.value >= 0)
    case Change(_, wait, every) => (wait.Some? ==> wait.value >= 0) && (every.Some? ==> every.value >= 0)
    case Dispose(_) => true
  }

  lemma {:induction false} WithoutIsPart(timers: seq<Timer>, id: nat)
    ensures forall t :: t in Without(timers, id) ==> t in timers
  {
    if timers != [] {
      WithoutIsPart(timers[1..], id);
    }
  }

  lemma ActionKeepsNoneLate(a: Action, c: Clock)
    requires AsksAhead(a) && NoneLate(c)
    ensures NoneLate(Did(a, c)) && Did(a, c).now == c.now && Did(a, c).fired == c.fired
  {
    if a.Dispose? {
      WithoutIsPart(c.timers, a.id);
      assert forall i :: 0 <= i < |Did(a, c).timers| ==> Did(a, c).timers[i] in Did(a, c).timers;
    }
  }

  lemma {:induction false} ActionsAreWellBehaved(actions: seq<Action>, c: Clock)
    ensures DidAll(actions, c).now == c.now && DidAll(actions, c).fired == c.fired
    ensures (forall i :: 0 <= i < |actions| ==> AsksAhead(actions[i])) && NoneLate(c) ==> NoneLate(DidAll(actions, c))
  {
    if actions != [] {
      ActionsAreWellBehaved(actions[..|actions| - 1], c);
      if (forall i :: 0 <= i < |actions| ==> AsksAhead(actions[i])) && NoneLate(c) {
        ActionKeepsNoneLate(actions[|actions| - 1], DidAll(actions[..|actions| - 1], c));
      }
    }
  }

  /** Callbacks that create, change and dispose timers, asking only for times to come, are all the order of time needs. */
  lemma ScriptsAreWellBehaved(script: Script)
    requires forall id: nat, c: Clock, i: nat {:trigger script(id, c)[i]} :: i < |script(id, c)| ==> AsksAhead(script(id, c)[i])
    ensures WellBehaved(CallbackOf(script))
  {
    forall id: nat, c: Clock
      ensures CallbackOf(script)(id, c).now == c.now && CallbackOf(script)(id, c).fired == c.fired
      ensures NoneLate(c) ==> NoneLate(CallbackOf(script)(id, c))
    {
      ActionsAreWellBehaved(script(id, c), c);
    }
  }

  /** Callbacks that do the same lead to the same. */
  lemma {:induction false} SameCallbacks(f: Callback, g: Callback, c: Clock, end: int, n: nat, r: Clock)
    requires forall id: nat, d: Clock :: f(id, d) == g(id, d)
    requires Advances(f, c, end, n, r)
    ensures Advances(g, c, end, n, r)
    decreases n
  {
    var next := NextDue(c.timers, end);
    if next.Some? {
      SameCallbacks(f, g, Fire(f, c, next.value), end, n - 1, r);
    }
  }

  /** Where callbacks register nothing, advancing ends: in Advanced, after all that was due. */
  lemma QuietScriptEnds(script: Script, c: Clock, end: int)
    requires PeriodsArePositive(c.timers) && forall id: nat, d: Clock :: script(id, d) == []
    ensures Advances(CallbackOf(script), c, end, TotalDue(c.timers, end), Advanced(c, end))
  {
    SameCallbacks(QUIET, CallbackOf(script), c, end, TotalDue(c.timers, end), Advanced(c, end));
  }

  // ---- One timer among others -------------------------------------------------------

  /** Every timer was given its own number. */
  predicate WellNumbered(c: Clock) {
    DistinctIds(c.timers) && forall i :: 0 <= i < |c.timers| ==> c.timers[i].id < c.issued
  }

  /** The timer with this number was created, and is on the clock no more. */
  predicate Gone(c: Clock, id: nat) {
    id < c.issued && forall i :: 0 <= i < |c.timers| ==> c.timers[i].id != id
  }

  lemma {:induction false} WithoutStaysDistinct(timers: seq<Timer>, id: nat)
    requires DistinctIds(timers)
    ensures DistinctIds(Without(timers, id))
  {
    if timers != [] && timers[0].id != id {
      WithoutStaysDistinct(timers[1..], id);
      WithoutIsPart(timers[1..], id);
      var rest := Without(timers[1..], id);
      assert forall i :: 0 <= i < |rest| ==> rest[i] in rest;
    }
  }

  lemma ActionKeepsNumbers(a: Action, c: Clock)
    requires WellNumbered(c)
    ensures WellNumbered(Did(a, c)) && Did(a, c).issued >= c.issued
  {
    if a.Dispose? {
      WithoutStaysDistinct(c.timers, a.id);
      WithoutIsPart(c.timers, a.id);
      assert forall i :: 0 <= i < |Did(a, c).timers| ==> Did(a, c).timers[i] in Did(a, c).timers;
    }
  }

  lemma ActionKeepsGone(a: Action, c: Clock, id: nat)
    requires Gone(c, id)
    ensures Gone(Did(a, c), id)
  {
    if a.Dispose? {
      WithoutIsPart(c.timers, a.id);
      assert forall i :: 0 <= i < |Did(a, c).timers| ==> Did(a, c).timers[i] in Did(a, c).timers;
    }
  }

  lemma {:induction false} ActionsKeepGone(actions: seq<Action>, c: Clock, id: nat)
    requires Gone(c, id)
    ensures Gone(DidAll(actions, c), id) && DidAll(actions, c).fired == c.fired
  {
    if actions != [] {
      ActionsKeepGone(actions[..|actions| - 1], c, id);
      ActionKeepsGone(actions[|actions| - 1], DidAll(actions[..|actions| - 1], c), id);
    }
  }

  lemma {:induction false} GoneNeverFires(script: Script, c: Clock, end: int, n: nat, r: Clock, id: nat)
    requires Gone(c, id) && Advances(CallbackOf(script), c, end, n, r)
    ensures TimesFired(r.fired, id) == TimesFired(c.fired, id)
    decreases n
  {
    var next := NextDue(c.timers, end);
    if next.Some? {
      var d := FiredAt(c, next.value);
      assert d.fired[..|d.fired| - 1] == c.fired;
      ActionsKeepGone(script(c.timers[next.value].id, d), d, id);
      GoneNeverFires(script, Fire(CallbackOf(script), c, next.value), end, n - 1, r, id);
    }
  }

  /** A disposed timer never fires again, whatever the callbacks do. */
  lemma DisposedNeverFires(script: Script, c: Clock, id: nat, end: int, n: nat, r: Clock)
    requires DistinctIds(c.timers) && id < c.issued
    requires Advances(CallbackOf(script), Did(Dispose(id), c), end, n, r)
    ensures TimesFired(r.fired, id) == TimesFired(c.fired, id)
  {
    WithoutIsGone(c.timers, id);
    var d := Did(Dispose(id), c);
    assert forall i :: 0 <= i < |d.timers| ==> d.timers[i] in d.timers;
    GoneNeverFires(script, d, end, n, r, id);
  }

  predicate Touches(a: Action, id: nat) {
    match a
    case Create(_, _) => false
    case Change(other, _, _) => other == id
    case Dispose(other) => other == id
  }

  /** No callback changes or disposes the timer; they may do so to any other. */
  ghost predicate LeavesAlone(script: Script, id: nat) {
    forall other: nat, c: Clock, i: nat {:trigger script(other, c)[i]} :: i < |script(other, c)| ==> !Touches(script(other, c)[i], id)
  }

  lemma {:induction false} WithoutKeepsOthers(timers: seq<Timer>, id: nat, t: Timer)
    requires t in timers && t.id != id
    ensures t in Without(timers, id)
  {
    if timers[0] != t && timers[0].id != id {
      WithoutKeepsOthers(timers[1..], id, t);
    } else if timers[0].id == id {
      assert t in timers[1..];
    }
  }

  lemma {:induction false} ActionsLeaveAlone(actions: seq<Action>, c: Clock, t: Timer)
    requires WellNumbered(c) && t in c.timers && forall i :: 0 <= i < |actions| ==> !Touches(actions[i], t.id)
    ensures var d := DidAll(actions, c); WellNumbered(d) && t in d.timers && d.fired == c.fired
  {
    if actions != [] {
      var before, last := DidAll(actions[..|actions| - 1], c), actions[|actions| - 1];
      ActionsLeaveAlone(actions[..|actions| - 1], c, t);
      ActionKeepsNumbers(last, before);
      match last
      case Create(_, _) =>
      case Change(other, wait, every) =>
        var i :| 0 <= i < |before.timers| && before.timers[i] == t;
        assert Changed(before, other, wait, every).timers[i] == t;
      case Dispose(other) => WithoutKeepsOthers(before.timers, other, t);
    }
  }

  /** The timer after one firing: rearmed if it was the one that fired. */
  function AfterFiring(c: Clock, i: nat, t: Timer): Timer
    requires i < |c.timers| && c.timers[i].due.Some?
  {
    if c.timers[i] == t then Rearmed(t) else t
  }

  lemma FiringKeepsTimer(script: Script, c: Clock, i: nat, t: Timer)
    requires i < |c.timers| && c.timers[i].due.Some? && WellNumbered(c) && t in c.timers && LeavesAlone(script, t.id)
    ensures var d := Fire(CallbackOf(script), c, i);
            && WellNumbered(d) && AfterFiring(c, i, t) in d.timers
            && TimesFired(d.fired, t.id) == TimesFired(c.fired, t.id) + if c.timers[i] == t then 1 else 0
  {
    var d := FiredAt(c, i);
    var j :| 0 <= j < |c.timers| && c.timers[j] == t;
    assert d.timers[j] == AfterFiring(c, i, t);
    assert d.fired[..|d.fired| - 1] == c.fired;
    ActionsLeaveAlone(script(c.timers[i].id, d), d, AfterFiring(c, i, t));
  }

  ghost predicate IsStillListed(c: Clock, t: Timer) {
    exists u :: u in c.timers && u.id == t.id && u.period == t.period
  }

  /** Whatever the callbacks do to the others: a timer they leave alone fires exactly as often as it was due. */
  lemma {:induction false} FiresAsOftenAsDue(script: Script, c: Clock, end: int, n: nat, r: Clock, t: Timer)
    requires WellNumbered(c) && t in c.timers && (t.period.Some? ==> t.period.value >= 0) && LeavesAlone(script, t.id)
    requires Advances(CallbackOf(script), c, end, n, r)
    ensures WellNumbered(r) && IsStillListed(r, t) && r.now == end
    ensures TimesFired(r.fired, t.id) == TimesFired(c.fired, t.id) + DueCount(t, end)
    decreases n
  {
    var next := NextDue(c.timers, end);
    NextDueIsEarliest(c.timers, end);
    if next.None? {
      var j :| 0 <= j < |c.timers| && c.timers[j] == t;
      assert !DueBy(c.timers[j], end);
      assert t in r.timers;
    } else {
      var after := AfterFiring(c, next.value, t);
      FiringKeepsTimer(script, c, next.value, t);
      if c.timers[next.value] == t {
        FiringCountsDown(t, end);
      }
      FiresAsOftenAsDue(script, Fire(CallbackOf(script), c, next.value), end, n - 1, r, after);
    }
  }

  /** A new timer fires as often as it was asked to: never before its wait is over, and then once, or once more every period. */
  lemma CreatedFiresAsAsked(
      script: Script, c: Clock, wait: Option<nat>, every: Option<int>, span: nat, n: nat, r: Clock)
    requires WellNumbered(c) && LeavesAlone(script, c.issued) && (every.Some? ==> every.value >= 0)
    requires Advances(CallbackOf(script), Did(Create(wait, every), c), c.now + span, n, r)
    ensures TimesFired(r.fired, c.issued) == TimesFired(c.fired, c.issued) +
              if wait.None? || span < wait.value then 0
              else if every.None? || every.value == 0 then 1
              else (span - wait.value) / every.value + 1
  {
    var d := Did(Create(wait, every), c);
    var t := d.timers[|c.timers|];
    ActionKeepsNumbers(Create(wait, every), c);
    assert t == Timer(c.issued, if wait.None? then None else Some(c.now + wait.value), every) && t in d.timers;
    FiresAsOftenAsDue(script, d, c.now + span, n, r, t);
  }

  lemma ChangedFiresWhenDue(script: Script, c: Clock, t: Timer, wait: nat, span: nat, n: nat, r: Clock)
    requires WellNumbered(c) && t in c.timers && LeavesAlone(script, t.id)
    requires Advances(CallbackOf(script), Changed(c, t.id, Some(wait), None), c.now + span, n, r)
    ensures WellNumbered(r) && r.now == c.now + span && exists u :: u in r.timers && u.id == t.id
    ensures TimesFired(r.fired, t.id) == TimesFired(c.fired, t.id) + if span < wait then 0 else 1
  {
    var start := Changed(c, t.id, Some(wait), None);
    var j :| 0 <= j < |c.timers| && c.timers[j] == t;
    var changed := start.timers[j];
    assert changed == Timer(t.id, Some(c.now + wait), None);
    FiresAsOftenAsDue(script, start, c.now + span, n, r, changed);
    var u :| u in r.timers && u.id == changed.id && u.period == changed.period;
  }

  /**
    A debounce: a one-shot timer changed again before it was due does not fire for the first
    wait, and fires once for the second if the clock gets that far, as long as the callbacks
    leave it alone.
   */
  lemma ChangedAgainFiresOnce(
      script: Script, c: Clock, t: Timer, wait: nat, first: nat, n: nat, mid: Clock, second: nat, m: nat, r: Clock)
    requires WellNumbered(c) && t in c.timers && LeavesAlone(script, t.id) && first < wait
    requires Advances(CallbackOf(script), Changed(c, t.id, Some(wait), None), c.now + first, n, mid)
    requires Advances(CallbackOf(script), Changed(mid, t.id, Some(wait), None), mid.now + second, m, r)
    ensures TimesFired(r.fired, t.id) == TimesFired(c.fired, t.id) + if second < wait then 0 else 1
  {
    ChangedFiresWhenDue(script, c, t, wait, first, n, mid);
    var u :| u in mid.timers && u.id == t.id;
    ChangedFiresWhenDue(script, mid, u, wait, second, m, r);
  }

  // ---- The objects --------------------------------------------------------------

  class SteppedTimer {
    const clock: SteppedTime
    const id: nat
    var due: Option<int>
    var period: Option<int>

    constructor (clock: SteppedTime, id: nat)
      ensures this.clock == clock && this.id == id && due.None? && period.None?
    {
      this.clock := clock;
      this.id := id;
      due, period := None, None;
    }

    function Value(): Timer reads this {
      Timer(id, due, period)
    }

    /** This timer's number on its clock is its own, whether or not it is still listed. */
    ghost predicate Owned()
      reads clock, clock.timers
    {
      clock.Valid() && id < clock.issued && forall i :: 0 <= i < |clock.timers| ==> (clock.timers[i].id == id <==> clock.timers[i] == this)
    }

    method Change(wait: Option<int>, every: Option<int>)
      requires Owned()
      modifies this
      ensures Owned()
      ensures Value() == Timer(id, if wait.None? then None else Some(clock.now + wait.value), every)
      ensures clock.State() == Changed(old(clock.State()), id, wait, every)
    {
      due := if wait.None? then None else Some(clock.now + wait.value);
      period := every;
      assert forall i :: 0 <= i < |clock.timers| && clock.timers[i] != this ==> clock.timers[i].Value() == old(clock.timers[i].Value());
      assert clock.State().timers == Changed(old(clock.State()), id, wait, every).timers;
    }

    /** Sets the next due time, or none. */
    method Rearm(ghost i: nat)
      requires Owned() && due.Some? && clock.now == due.value && i < |clock.timers| && clock.timers[i] == this
      modifies this, clock`fired
      ensures clock.Valid() && clock.State() == FiredAt(old(clock.State()), i)
    {
      ghost var before := clock.State();
      clock.fired := clock.fired + [Firing(id, clock.now)];
      due := if period.None? || period.value == 0 then None else Some(due.value + period.value);
      assert clock.State().timers == before.timers[i := Rearmed(before.timers[i])];
    }

    /** Rearms this timer and runs its callback. */
    method Fire(ghost i: nat)
      requires Owned() && due.Some? && clock.now == due.value && i < |clock.timers| && clock.timers[i] == this
      modifies this, clock, clock.repr
      ensures clock.Valid() && clock.State() == SteppedClock.Fire(CallbackOf(clock.script), old(clock.State()), i)
      ensures fresh(clock.repr - old(clock.repr))
    {
      Rearm(i);
      var actions := clock.script(id, clock.State());
      clock.RunActions(actions);
    }

    method Dispose()
      requires Owned()
      modifies this, clock`timers
      ensures Owned() && this !in clock.timers && due.None?
      ensures clock.State() == old(clock.State()).(timers := Without(old(clock.State().timers), id))
    {
      ghost var before := clock.State().timers;
      due := None;
      WithoutForgets(before, clock.State().timers, id);
      clock.Remove(this);
    }
  }

  class SteppedTime {
    const script: Script
    var now: int
    var timers: seq<SteppedTimer>
    var fired: seq<Firing>
    var issued: nat
    /** The timers listed now or before. */
    ghost var repr: set<SteppedTimer>

    ghost predicate Valid()
      reads this, timers
    {
      && (forall i :: 0 <= i < |timers| ==> timers[i] in repr && timers[i].clock == this && timers[i].id < issued)
      && (forall i, j :: 0 <= i < j < |timers| ==> timers[i].id != timers[j].id)
    }

    function State(): (c: Clock)
      reads this, timers
    {
      Clock(now, Values(timers), fired, issued)
    }

    constructor (start: int, script: Script)
      ensures Valid() && State() == Clock(start, [], [], 0) && this.script == script
    {
      this.script := script;
      now, timers, fired, issued, repr := start, [], [], 0, {};
    }

    /** A new timer, listed but not due. */
    method ListTimer() returns (timer: SteppedTimer)
      requires Valid()
      modifies this`timers, this`issued, this`repr
      ensures fresh(timer) && timer.Owned() && timer.clock == this && timer.id == old(issued)
      ensures timers == old(timers) + [timer] && repr == old(repr) + {timer}
      ensures State() == old(State()).(timers := old(State().timers) + [Timer(old(issued), None, None)], issued := old(issued) + 1)
    {
      ghost var before := State();
      timer := new SteppedTimer(this, issued);
      issued := issued + 1;
      timers, repr := timers + [timer], repr + {timer};
      assert Values(timers) == before.timers + [timer.Value()];
    }

    method CreateTimer(wait: Option<int>, every: Option<int>) returns (timer: SteppedTimer)
      requires Valid()
      modifies this`timers, this`issued, this`repr
      ensures fresh(timer) && timer.Owned() && timer.clock == this
      ensures timers == old(timers) + [timer] && Valid() && repr == old(repr) + {timer}
      ensures State() == Did(Create(wait, every), old(State()))
    {
      ChangedLast(State(), issued, wait, every);
      timer := ListTimer();
      timer.Change(wait, every);
    }

    method IndexOf(timer: SteppedTimer) returns (i: nat)
      ensures i <= |timers| && (i < |timers| ==> timers[i] == timer)
      ensures forall j :: 0 <= j < i ==> timers[j] != timer
    {
      i := 0;
      while i < |timers| && timers[i] != timer
        invariant i <= |timers| && forall j :: 0 <= j < i ==> timers[j] != timer
      {
        i := i + 1;
      }
    }

    method Remove(timer: SteppedTimer)
      requires timer.clock == this && timer.Owned()
      modifies this`timers
      ensures Valid() && timer.Owned() && timer !in timers
      ensures Values(timers) == Without(old(Values(timers)), timer.id)
    {
      var i := IndexOf(timer);
      if i < |timers| {
        CutValues(timers, i);
        timers := timers[..i] + timers[i + 1..];
      } else {
        WithoutAt(Values(timers), i, timer.id);
      }
    }

    // ---- A callback's actions ------------------------------------------------------

    /** The timer a callback means, if it is still on the clock. */
    method WithNumber(id: nat) returns (timer: SteppedTimer?)
      requires Valid()
      ensures timer == null ==> forall i :: 0 <= i < |timers| ==> timers[i].id != id
      ensures timer != null ==> timer in timers && timer.id == id && timer.Owned() && timer.clock == this
    {
      timer := null;
      var i := 0;
      while i < |timers|
        invariant i <= |timers| && forall j :: 0 <= j < i ==> timers[j].id != id
      {
        if timers[i].id == id {
          return timers[i];
        }
        i := i + 1;
      }
    }

    method RunAction(a: Action)
      requires Valid()
      modifies this`timers, this`issued, this`repr, repr
      ensures Valid() && State() == Did(a, old(State()))
      ensures fresh(repr - old(repr))
    {
      match a {
        case Create(wait, every) =>
          var _ := CreateTimer(wait, every);
        case Change(id, wait, every) =>
          var timer := WithNumber(id);
          if timer != null {
            timer.Change(wait, every);
          } else {
            assert Changed(State(), id, wait, every).timers == State().timers;
          }
        case Dispose(id) =>
          var timer := WithNumber(id);
          if timer != null {
            timer.Dispose();
          } else {
            WithoutAt(State().timers, |timers|, id);
          }
      }
    }

    method RunActions(actions: seq<Action>)
      requires Valid()
      modifies this`timers, this`issued, this`repr, repr
      ensures Valid() && State() == DidAll(actions, old(State()))
      ensures fresh(repr - old(repr))
    {
      ghost var start := State();
      var i := 0;
      while i < |actions|
        invariant i <= |actions| && Valid()
        invariant State() == DidAll(actions[..i], start)
        invariant fresh(repr - old(repr))
      {
        RunAction(actions[i]);
        OneMoreAction(actions, i, start);
        i := i + 1;
      }
      assert actions[..i] == actions;
    }

    // ---- Advancing -------------------------------------------------------------------

    /** The first of the earliest timers due by `end`. */
    method FindNext(end: int) returns (next: Option<nat>)
      requires Valid()
      ensures next == NextDue(State().timers, end)
    {
      next := None;
      var i := 0;
      while i < |timers|
        invariant i <= |timers|
        invariant next == NextDue(State().timers[..i], end)
      {
        assert State().timers[..i + 1][..i] == State().timers[..i];
        var due := timers[i].due;
        if due.Some? && due.value <= end && (next.None? || due.value < timers[next.value].due.value) {
          next := Some(i);
        }
        i := i + 1;
      }
      assert State().timers[..i] == State().timers;
    }

    method StepTo(next: nat)
      requires Valid() && next < |timers| && timers[next].due.Some?
      modifies this, repr
      ensures Valid() && State() == Fire(CallbackOf(script), old(State()), next)
      ensures fresh(repr - old(repr))
    {
      ghost var before := State();
      var timer := timers[next];
      now := timer.due.value;
      assert State() == before.(now := now);
      assert Fire(CallbackOf(script), State(), next) == Fire(CallbackOf(script), before, next);
      timer.Fire(next);
    }

    /** Advancing to `end` from here takes `left` firings and ends in `r`. */
    ghost predicate Leads(end: int, left: nat, r: Clock)
      reads this, timers
    {
      Advances(CallbackOf(script), State(), end, left, r)
    }

    /** Fires the next timer due by `end`, if there is one. */
    method FireNext(end: int, ghost left: nat, ghost r: Clock) returns (fired: bool)
      requires Valid() && Leads(end, left, r)
      modifies this, repr
      ensures Valid() && fresh(repr - old(repr))
      ensures if fired then left > 0 && Leads(end, left - 1, r) else State().(now := end) == r
    {
      var next := FindNext(end);
      fired := next.Some?;
      if fired {
        StepTo(next.value);
      }
    }

    method SetNow(end: int)
      requires Valid()
      modifies this`now
      ensures Valid() && State() == old(State()).(now := end)
    {
      ghost var before := State();
      now := end;
      assert Values(timers) == before.timers;
    }

    /** Advances by `span`, when that ends: after `count` firings, in `r`. */
    method Advance(span: int, ghost count: nat, ghost r: Clock)
      requires Valid() && Leads(now + span, count, r)
      modifies this, repr
      ensures Valid() && State() == r
    {
      var end := now + span;
      ghost var left := count;
      var fired := true;
      while fired
        invariant Valid() && fresh(repr - old(repr))
        invariant if fired then Leads(end, left, r) else State().(now := end) == r
        decreases fired, left
      {
        fired := FireNext(end, left, r);
        if fired {
          left := left - 1;
        }
      }
      SetNow(end);
    }
  }

  function Values(timers: seq<SteppedTimer>): (v: seq<Timer>)
    reads timers
    ensures |v| == |timers| && forall i :: 0 <= i < |v| ==> v[i] == timers[i].Value()
  {
    seq(|timers|, i requires 0 <= i < |timers| reads timers => timers[i].Value())
  }

  lemma CutValues(timers: seq<SteppedTimer>, i: nat)
    requires i < |timers| && forall j :: 0 <= j < i ==> timers[j].id != timers[i].id
    ensures Values(timers[..i] + timers[i + 1..]) == Without(Values(timers), timers[i].id)
  {
    WithoutAt(Values(timers), i, timers[i].id);
    assert Values(timers[..i] + timers[i + 1..]) == Values(timers)[..i] + Values(timers)[i + 1..];
  }
}
