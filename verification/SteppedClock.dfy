/**
  The stepped test clock as a discrete-event scheduler (`SteppedTime` in
  apps/dotnet-shared/PPVPN.App.Core.Tests/TestHost.cs). Instants and spans are in ticks.
 */
module SteppedClock {
  import opened Wrappers

  /** A timer that is not due has no instant; an infinite or zero period means it fires once. */
  datatype Timer = Timer(id: nat, due: Option<int>, period: Option<int>)

  /** A callback that ran, and what the clock read then. */
  datatype Firing = Firing(id: nat, at: int)

  /** `issued` counts the timers created so far. */
  datatype Clock = Clock(now: int, timers: seq<Timer>, fired: seq<Firing>, issued: nat)

  /** What a callback does: it may create, change and dispose timers. */
  type Callback = (nat, Clock) -> Clock

  predicate DueBy(t: Timer, end: int) {
    t.due.Some? && t.due.value <= end
  }

  /** The first of the earliest timers due by `end`. */
  function NextDue(timers: seq<Timer>, end: int): (next: Option<nat>)
    ensures next.Some? ==> next.value < |timers| && DueBy(timers[next.value], end)
  {
    if timers == [] then None else
    var last := |timers| - 1;
    var before := NextDue(timers[..last], end);
    if DueBy(timers[last], end) && (before.None? || timers[last].due.value < timers[before.value].due.value) then Some(last)
    else before
  }

  /** None is due earlier, and none listed before it at the same instant. */
  lemma {:induction false} NextDueIsEarliest(timers: seq<Timer>, end: int)
    ensures var next := NextDue(timers, end);
      && (next.Some? ==>
            && (forall j :: 0 <= j < |timers| && timers[j].due.Some? ==> timers[next.value].due.value <= timers[j].due.value)
            && (forall j :: 0 <= j < next.value && timers[j].due.Some? ==> timers[next.value].due.value < timers[j].due.value))
      && (next.None? ==> forall j :: 0 <= j < |timers| ==> !DueBy(timers[j], end))
  {
    if timers != [] {
      NextDueIsEarliest(timers[..|timers| - 1], end);
    }
  }

  function Rearmed(t: Timer): Timer
    requires t.due.Some?
  {
    t.(due := if t.period.None? || t.period.value == 0 then None else Some(t.due.value + t.period.value))
  }

  function FiredAt(c: Clock, i: nat): Clock
    requires i < |c.timers| && c.timers[i].due.Some?
  {
    var t := c.timers[i];
    c.(now := t.due.value, timers := c.timers[i := Rearmed(t)], fired := c.fired + [Firing(t.id, t.due.value)])
  }

  /** The clock steps to the timer's instant, the timer is rearmed, its callback runs. */
  function Fire(f: Callback, c: Clock, i: nat): Clock
    requires i < |c.timers| && c.timers[i].due.Some?
  {
    var t := c.timers[i];
    f(t.id, FiredAt(c, i))
  }

  /** Advancing to `end` fires `n` timers and leaves `r`. */
  predicate Advances(f: Callback, c: Clock, end: int, n: nat, r: Clock)
    decreases n
  {
    var next := NextDue(c.timers, end);
    if next.None? then n == 0 && r == c.(now := end)
    else n > 0 && Advances(f, Fire(f, c, next.value), end, n - 1, r)
  }

  lemma {:induction false} AdvancesOneWay(f: Callback, c: Clock, end: int, n: nat, r: Clock, m: nat, s: Clock)
    requires Advances(f, c, end, n, r) && Advances(f, c, end, m, s)
    ensures n == m && r == s
    decreases n
  {
    var next := NextDue(c.timers, end);
    if next.Some? {
      AdvancesOneWay(f, Fire(f, c, next.value), end, n - 1, r, m - 1, s);
    }
  }

  // ---- Additivity -----------------------------------------------------------

  lemma {:induction false} LaterEndSameNext(timers: seq<Timer>, end: int, later: int)
    requires end <= later && NextDue(timers, end).Some?
    ensures NextDue(timers, later) == NextDue(timers, end)
  {
    var last := |timers| - 1;
    NextDueIsEarliest(timers[..last], end);
    if NextDue(timers[..last], end).Some? {
      LaterEndSameNext(timers[..last], end, later);
    }
  }

  lemma NowIsSetByFiring(f: Callback, c: Clock, now: int, end: int, n: nat, r: Clock)
    ensures Advances(f, c.(now := now), end, n, r) <==> Advances(f, c, end, n, r)
  {
    var next := NextDue(c.timers, end);
    if next.Some? {
      assert Fire(f, c.(now := now), next.value) == Fire(f, c, next.value);
    }
  }

  /** Advancing to `first` and then to `second` is advancing to `second`: the same callbacks, in the same order, at the same readings, to the same state, whatever the callbacks do. */
  lemma {:induction false} AdvancingIsAdditive(
      f: Callback, c: Clock, first: int, n: nat, mid: Clock, second: int, m: nat, r: Clock)
    requires first <= second && Advances(f, c, first, n, mid) && Advances(f, mid, second, m, r)
    ensures Advances(f, c, second, n + m, r)
    decreases n
  {
    var next := NextDue(c.timers, first);
    if next.None? {
      NowIsSetByFiring(f, c, first, second, m, r);
    } else {
      LaterEndSameNext(c.timers, first, second);
      AdvancingIsAdditive(f, Fire(f, c, next.value), first, n - 1, mid, second, m, r);
    }
  }

  lemma OneMoreFiring(f: Callback, c: Clock, end: int, n: nat, r: Clock)
    requires NextDue(c.timers, end).Some? && Advances(f, Fire(f, c, NextDue(c.timers, end).value), end, n, r)
    ensures Advances(f, c, end, n + 1, r)
  {
  }

  /** And the other way: an advance that ends can be made in two parts. */
  lemma {:induction false} AdvancingSplits(f: Callback, c: Clock, first: int, second: int, k: nat, r: Clock)
    returns (n: nat, mid: Clock)
    requires first <= second && Advances(f, c, second, k, r)
    ensures n <= k && Advances(f, c, first, n, mid) && Advances(f, mid, second, k - n, r)
    decreases k
  {
    if NextDue(c.timers, first).None? {
      n, mid := 0, c.(now := first);
      NowIsSetByFiring(f, c, first, second, k, r);
    } else {
      LaterEndSameNext(c.timers, first, second);
      var after := Fire(f, c, NextDue(c.timers, first).value);
      n, mid := AdvancingSplits(f, after, first, second, k - 1, r);
      OneMoreFiring(f, c, first, n, mid);
      n := n + 1;
    }
  }

  // ---- Time order --------------------------------------------------------------

  /** Nothing pending is due before now, and periods are not negative. */
  predicate NoneLate(c: Clock) {
    forall i :: 0 <= i < |c.timers| ==>
      && (c.timers[i].due.Some? ==> c.now <= c.timers[i].due.value)
      && (c.timers[i].period.Some? ==> c.timers[i].period.value >= 0)
  }

  /** A callback cannot set the clock or unfire anything, and asks only for times to come. */
  ghost predicate WellBehaved(f: Callback) {
    forall id: nat, c: Clock :: f(id, c).now == c.now && f(id, c).fired == c.fired && (NoneLate(c) ==> NoneLate(f(id, c)))
  }

  /** What fired since `from` fired in time order, between `start` and `end`. */
  predicate InOrder(fired: seq<Firing>, from: nat, start: int, end: int) {
    && from <= |fired|
    && (forall i :: from <= i < |fired| ==> start <= fired[i].at <= end)
    && (forall i, j :: from <= i < j < |fired| ==> fired[i].at <= fired[j].at)
  }

  /** Each timer fires with the clock at its due time; the clock never goes back, ends at `end` and leaves nothing due by then. */
  lemma {:induction false} AdvancingKeepsTimeOrder(f: Callback, c: Clock, end: int, n: nat, r: Clock)
    requires WellBehaved(f) && NoneLate(c) && c.now <= end && Advances(f, c, end, n, r)
    ensures r.now == end && NoneLate(r) && NextDue(r.timers, end).None?
    ensures c.fired <= r.fired && |r.fired| == |c.fired| + n && InOrder(r.fired, |c.fired|, c.now, end)
    decreases n
  {
    var next := NextDue(c.timers, end);
    NextDueIsEarliest(c.timers, end);
    if next.Some? {
      var t := c.timers[next.value];
      var stepped := FiredAt(c, next.value);
      assert NoneLate(stepped);
      assert Fire(f, c, next.value) == f(t.id, stepped);
      AdvancingKeepsTimeOrder(f, Fire(f, c, next.value), end, n - 1, r);
      assert c.fired <= c.fired + [Firing(t.id, t.due.value)] <= r.fired;
      assert r.fired[|c.fired|] == (c.fired + [Firing(t.id, t.due.value)])[|c.fired|];
    }
  }

  // ---- Termination, with exact counts --------------------------------------------

  /** A callback that registers nothing. */
  const QUIET: Callback := (id: nat, c: Clock) => c

  /** Zero counts as infinite, so a period is positive or there is none. */
  predicate PeriodsArePositive(timers: seq<Timer>) {
    forall i :: 0 <= i < |timers| && timers[i].period.Some? ==> timers[i].period.value >= 0
  }

  /** How often a timer is still due by `end`. */
  function DueCount(t: Timer, end: int): nat
    requires t.period.Some? ==> t.period.value >= 0
  {
    if !DueBy(t, end) then 0
    else if t.period.None? || t.period.value == 0 then 1
    else (end - t.due.value) / t.period.value + 1
  }

  function TotalDue(timers: seq<Timer>, end: int): nat
    requires PeriodsArePositive(timers)
  {
    if timers == [] then 0 else DueCount(timers[|timers| - 1], end) + TotalDue(timers[..|timers| - 1], end)
  }

  lemma AtLeastOnce(period: nat, times: int)
    requires times >= 1
    ensures period * times >= period
  {
    assert period * times == period * (times - 1) + period;
  }

  lemma QuotientIs(left: nat, period: nat, q: int, rem: nat)
    requires rem < period && left == period * q + rem
    ensures left / period == q
  {
    var r := left / period;
    var more := left % period;
    assert left == period * r + more && 0 <= more < period;
    assert period * (r - q) == period * r - period * q;
    assert period * (q - r) == period * q - period * r;
    if r > q {
      AtLeastOnce(period, r - q);
    } else if r < q {
      AtLeastOnce(period, q - r);
    }
  }

  lemma QuotientStep(left: nat, period: nat)
    requires 0 < period
    ensures left >= period ==> (left - period) / period + 1 == left / period
    ensures left < period ==> left / period == 0
  {
    if left >= period {
      var q := (left - period) / period;
      var rem := (left - period) % period;
      assert left - period == period * q + rem;
      assert period * (q + 1) == period * q + period;
      QuotientIs(left, period, q + 1, rem);
    } else {
      QuotientIs(left, period, 0, left);
    }
  }

  /** Firing a timer takes exactly one off what it is still due. */
  lemma FiringCountsDown(t: Timer, end: int)
    requires DueBy(t, end) && (t.period.Some? ==> t.period.value >= 0)
    ensures DueCount(Rearmed(t), end) + 1 == DueCount(t, end)
  {
    if t.period.Some? && t.period.value > 0 {
      QuotientStep(end - t.due.value, t.period.value);
    }
  }

  lemma {:induction false} TotalCountsDown(timers: seq<Timer>, end: int, i: nat)
    requires PeriodsArePositive(timers) && i < |timers| && DueBy(timers[i], end)
    ensures PeriodsArePositive(timers[i := Rearmed(timers[i])])
    ensures TotalDue(timers[i := Rearmed(timers[i])], end) + 1 == TotalDue(timers, end)
  {
    var last := |timers| - 1;
    var fired := timers[i := Rearmed(timers[i])];
    FiringCountsDown(timers[i], end);
    if i < last {
      TotalCountsDown(timers[..last], end, i);
      assert fired[..last] == timers[..last][i := Rearmed(timers[i])];
    } else {
      assert fired[..last] == timers[..last];
    }
  }

  lemma {:induction false} NothingLeft(timers: seq<Timer>, end: int)
    requires PeriodsArePositive(timers) && NextDue(timers, end).None?
    ensures TotalDue(timers, end) == 0
  {
    if timers != [] {
      NothingLeft(timers[..|timers| - 1], end);
    }
  }

  /** With callbacks that register nothing, advancing ends, after exactly as many firings as were due. */
  function Advanced(c: Clock, end: int): (r: Clock)
    requires PeriodsArePositive(c.timers)
    ensures Advances(QUIET, c, end, TotalDue(c.timers, end), r)
    decreases TotalDue(c.timers, end)
  {
    var next := NextDue(c.timers, end);
    if next.None? then
      NothingLeft(c.timers, end);
      c.(now := end)
    else
      TotalCountsDown(c.timers, end, next.value);
      Advanced(Fire(QUIET, c, next.value), end)
  }

  function TimesFired(fired: seq<Firing>, id: nat): nat {
    if fired == [] then 0
    else (if fired[|fired| - 1].id == id then 1 else 0) + TimesFired(fired[..|fired| - 1], id)
  }

  predicate DistinctIds(timers: seq<Timer>) {
    forall i, j :: 0 <= i < j < |timers| ==> timers[i].id != timers[j].id
  }

  /** Each timer fires exactly as often as it was due: once, or (end - due) / period + 1 times. */
  lemma {:induction false} EachFiresAsOftenAsDue(c: Clock, end: int, n: nat, r: Clock, i: nat)
    requires PeriodsArePositive(c.timers) && DistinctIds(c.timers) && i < |c.timers|
    requires Advances(QUIET, c, end, n, r)
    ensures TimesFired(r.fired, c.timers[i].id) == TimesFired(c.fired, c.timers[i].id) + DueCount(c.timers[i], end)
    decreases n
  {
    var next := NextDue(c.timers, end);
    NextDueIsEarliest(c.timers, end);
    if next.Some? {
      var after := Fire(QUIET, c, next.value);
      FiringCountsDown(c.timers[next.value], end);
      assert after.fired[..|after.fired| - 1] == c.fired;
      EachFiresAsOftenAsDue(after, end, n - 1, r, i);
    }
  }

  // ---- Timers due at one instant ---------------------------------------------------

  /** Where in the list the timer with this number is. */
  function PlaceOf(timers: seq<Timer>, id: nat): (at: nat)
    ensures at <= |timers| && (at < |timers| ==> timers[at].id == id)
  {
    if timers == [] || timers[0].id == id then 0 else 1 + PlaceOf(timers[1..], id)
  }

  lemma {:induction false} PlaceIs(timers: seq<Timer>, i: nat)
    requires DistinctIds(timers) && i < |timers|
    ensures PlaceOf(timers, timers[i].id) == i
  {
    if i > 0 {
      PlaceIs(timers[1..], i - 1);
    }
  }

  lemma {:induction false} SamePlaces(a: seq<Timer>, b: seq<Timer>, id: nat)
    requires |a| == |b| && forall i :: 0 <= i < |a| ==> a[i].id == b[i].id
    ensures PlaceOf(a, id) == PlaceOf(b, id)
  {
    if a != [] {
      SamePlaces(a[1..], b[1..], id);
    }
  }

  /** The firing comes after what is due at `at` in place `place`: later, or at the same instant further down the list. */
  predicate Follows(timers: seq<Timer>, f: Firing, at: int, place: int) {
    f.at > at || (f.at == at && PlaceOf(timers, f.id) > place)
  }

  predicate AllFollow(timers: seq<Timer>, at: int, place: int) {
    forall j :: 0 <= j < |timers| && timers[j].due.Some? ==>
      timers[j].due.value > at || (timers[j].due.value == at && j > place)
  }

  /** Each firing since `from` follows the one before it. */
  predicate InListOrder(timers: seq<Timer>, fired: seq<Firing>, from: nat) {
    && from <= |fired|
    && forall a, b :: from <= a < b < |fired| ==> Follows(timers, fired[b], fired[a].at, PlaceOf(timers, fired[a].id))
  }

  lemma FiringFollows(timers: seq<Timer>, end: int, i: nat)
    requires NextDue(timers, end) == Some(i) && PeriodsArePositive(timers)
    ensures AllFollow(timers[i := Rearmed(timers[i])], timers[i].due.value, i)
  {
    NextDueIsEarliest(timers, end);
  }

  /** With callbacks that register nothing: timers fire by instant, and at one instant in the order in which they are listed. */
  lemma {:induction false} TiesFireInListOrder(c: Clock, end: int, n: nat, r: Clock)
    requires PeriodsArePositive(c.timers) && DistinctIds(c.timers) && Advances(QUIET, c, end, n, r)
    ensures c.fired <= r.fired && InListOrder(c.timers, r.fired, |c.fired|)
    ensures forall at: int, place: int | AllFollow(c.timers, at, place) ::
              forall k :: |c.fired| <= k < |r.fired| ==> Follows(c.timers, r.fired[k], at, place)
    decreases n
  {
    var next := NextDue(c.timers, end);
    if next.Some? {
      var i := next.value;
      var d := Fire(QUIET, c, i);
      FiringFollows(c.timers, end, i);
      TiesFireInListOrder(d, end, n - 1, r);
      PlaceIs(c.timers, i);
      forall id: nat
        ensures PlaceOf(d.timers, id) == PlaceOf(c.timers, id)
      {
        SamePlaces(d.timers, c.timers, id);
      }
      assert d.fired[|c.fired|] == Firing(c.timers[i].id, c.timers[i].due.value) == r.fired[|c.fired|];
      FirstIsFollowed(c, d, r, i);
      forall at: int, place: int | AllFollow(c.timers, at, place)
        ensures forall k :: |c.fired| <= k < |r.fired| ==> Follows(c.timers, r.fired[k], at, place)
      {
        StillFollow(c.timers, i, at, place);
        assert AllFollow(d.timers, at, place);
      }
    }
  }

  lemma StillFollow(timers: seq<Timer>, i: nat, at: int, place: int)
    requires i < |timers| && timers[i].due.Some? && PeriodsArePositive(timers) && AllFollow(timers, at, place)
    ensures AllFollow(timers[i := Rearmed(timers[i])], at, place)
  {
  }

  lemma FirstIsFollowed(c: Clock, d: Clock, r: Clock, i: nat)
    requires i < |c.timers| && c.timers[i].due.Some? && |d.fired| == |c.fired| + 1 && d.fired <= r.fired
    requires r.fired[|c.fired|] == Firing(c.timers[i].id, c.timers[i].due.value) && PlaceOf(c.timers, c.timers[i].id) == i
    requires forall id: nat :: PlaceOf(d.timers, id) == PlaceOf(c.timers, id)
    requires InListOrder(d.timers, r.fired, |d.fired|) && AllFollow(d.timers, c.timers[i].due.value, i)
    requires forall k :: |d.fired| <= k < |r.fired| ==> Follows(d.timers, r.fired[k], c.timers[i].due.value, i)
    ensures InListOrder(c.timers, r.fired, |c.fired|)
  {
  }
}
