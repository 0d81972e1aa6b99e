/** When notifications go out: the next slot after a moment, and the slots a running scheduler plans. */
module Slots {

  /** Moments are nanoseconds of UTC from a midnight; days have no leap seconds, as in Go's time package. */
  const HOUR := 3_600_000_000_000
  const DAY := 24 * HOUR

  /** Hours of the day, ascending. */
  predicate ValidSlots(slots: seq<int>) {
    && slots != []
    && (forall i | 0 <= i < |slots| :: 0 <= slots[i] <= 23)
    && (forall i, j | 0 <= i < j < |slots| :: slots[i] <= slots[j])
  }

  /** t is one of the slots of its day: so many hours of 3600 seconds after midnight. */
  predicate SlotInstant(slots: seq<int>, t: int) {
    exists i | 0 <= i < |slots| :: t % (86_400 * 1_000_000_000) == slots[i] * 3600 * 1_000_000_000
  }

  /** t is the least slot instant strictly after now. */
  ghost predicate IsNext(slots: seq<int>, now: int, t: int) {
    t > now && SlotInstant(slots, t) && forall u | SlotInstant(slots, u) && u > now :: t <= u
  }

  function At(day: int, hour: int): int {
    day * DAY + hour * HOUR
  }

  lemma AtSplits(day: int, hour: int)
    requires 0 <= hour <= 23
    ensures At(day, hour) / DAY == day && At(day, hour) % DAY == hour * HOUR
  {
  }

  lemma SplitsAt(t: int)
    ensures t == (t / DAY) * DAY + t % DAY && 0 <= t % DAY < DAY
    ensures var hour := (t % DAY) / HOUR; 0 <= hour <= 23 && hour * HOUR <= t % DAY < (hour + 1) * HOUR
  {
  }

  /** A slot instant of a later day comes after every moment of an earlier one. */
  lemma LaterDay(t: int, u: int)
    requires t / DAY < u / DAY
    ensures t < u
  {
  }

  lemma TodaysNext(slots: seq<int>, now: int, k: nat)
    requires ValidSlots(slots) && k < |slots| && slots[k] > (now % DAY) / HOUR
    requires forall i | 0 <= i < k :: slots[i] <= (now % DAY) / HOUR
    ensures IsNext(slots, now, At(now / DAY, slots[k]))
  {
    var t := At(now / DAY, slots[k]);
    AtSplits(now / DAY, slots[k]);
    SplitsAt(now);
    SplitsAt(t);
    forall u | SlotInstant(slots, u) && u > now
      ensures t <= u
    {
      SplitsAt(u);
      if u / DAY < now / DAY {
        LaterDay(u, now);
      } else if u / DAY == now / DAY {
        var i :| 0 <= i < |slots| && u % DAY == slots[i] * HOUR;
        assert slots[i] * HOUR > now % DAY;
        assert i >= k;
      } else {
        LaterDay(t, u);
      }
    }
  }

  lemma TomorrowsNext(slots: seq<int>, now: int)
    requires ValidSlots(slots)
    requires forall i | 0 <= i < |slots| :: slots[i] <= (now % DAY) / HOUR
    ensures IsNext(slots, now, At(now / DAY + 1, slots[0]))
  {
    var t := At(now / DAY + 1, slots[0]);
    AtSplits(now / DAY + 1, slots[0]);
    SplitsAt(now);
    LaterDay(now, t);
    forall u | SlotInstant(slots, u) && u > now
      ensures t <= u
    {
      SplitsAt(u);
      var i :| 0 <= i < |slots| && u % DAY == slots[i] * HOUR;
      if u / DAY < now / DAY {
        LaterDay(u, now);
      } else if u / DAY == now / DAY + 1 {
        assert slots[0] <= slots[i];
      } else if u / DAY > now / DAY + 1 {
        LaterDay(t, u);
      }
    }
  }

  method GetNextSlotTime(now: int, slots: seq<int>) returns (t: int)
    requires ValidSlots(slots)
    ensures IsNext(slots, now, t)
  {
    var curHour := (now % DAY) / HOUR;
    for k := 0 to |slots|
      invariant forall i | 0 <= i < k :: slots[i] <= curHour
    {
      if slots[k] > curHour {
        TodaysNext(slots, now, k);
        return At(now / DAY, slots[k]);
      }
    }
    TomorrowsNext(slots, now);
    return At(now / DAY + 1, slots[0]);
  }

  /** The scheduler's plan for the moments at which its loop looks at the clock. */
  ghost predicate Plan(slots: seq<int>, nows: seq<int>, planned: seq<int>) {
    |planned| == |nows| && forall i | 0 <= i < |nows| :: IsNext(slots, nows[i], planned[i])
  }

  method Scheduler(nows: seq<int>, slots: seq<int>) returns (planned: seq<int>)
    requires ValidSlots(slots)
    ensures Plan(slots, nows, planned)
  {
    planned := [];
    for i := 0 to |nows|
      invariant |planned| == i && forall k | 0 <= k < i :: IsNext(slots, nows[k], planned[k])
    {
      var nextRun := GetNextSlotTime(nows[i], slots);
      planned := planned + [nextRun];
    }
  }

  /** Timers never fire early: the loop comes round again no sooner than the planned moment. */
  predicate NeverEarly(nows: seq<int>, planned: seq<int>) {
    |planned| == |nows| && forall i | 0 < i < |nows| :: planned[i - 1] <= nows[i]
  }

  /** Then no slot is planned twice. */
  lemma {:induction false} StrictlyLater(slots: seq<int>, nows: seq<int>, planned: seq<int>, i: nat, j: nat)
    requires Plan(slots, nows, planned) && NeverEarly(nows, planned) && i < j < |planned|
    ensures planned[i] < planned[j]
  {
    assert IsNext(slots, nows[j], planned[j]);
    assert planned[j - 1] <= nows[j] < planned[j];
    if i < j - 1 {
      StrictlyLater(slots, nows, planned, i, j - 1);
    }
  }

  /** The following plan is the very next slot exactly when the round ended before that slot. */
  lemma NextPlanExactly(slots: seq<int>, nows: seq<int>, planned: seq<int>, i: nat, next: int)
    requires Plan(slots, nows, planned) && NeverEarly(nows, planned) && i + 1 < |planned|
    requires IsNext(slots, planned[i], next)
    ensures planned[i + 1] == next <==> nows[i + 1] < next
  {
    assert IsNext(slots, nows[i + 1], planned[i + 1]);
    assert planned[i + 1 - 1] <= nows[i + 1];
  }

  ghost predicate EndsBeforeNext(slots: seq<int>, served: int, now: int) {
    forall next | IsNext(slots, served, next) :: now < next
  }

  /** Every round ends before the slot after the one it served. */
  ghost predicate RoundsFit(slots: seq<int>, nows: seq<int>, planned: seq<int>) {
    |planned| == |nows| && forall i | 0 < i < |nows| :: EndsBeforeNext(slots, planned[i - 1], nows[i])
  }

  /** Then every slot instant from the start on is planned. */
  lemma {:induction false} NoneMissed(slots: seq<int>, nows: seq<int>, planned: seq<int>, n: nat, u: int)
    requires ValidSlots(slots) && Plan(slots, nows, planned)
    requires NeverEarly(nows, planned) && RoundsFit(slots, nows, planned)
    requires n < |planned| && SlotInstant(slots, u) && nows[0] < u <= planned[n]
    ensures u in planned[..n + 1]
  {
    assert IsNext(slots, nows[n], planned[n]);
    if u == planned[n] {
      assert planned[..n + 1][n] == u;
    } else if n > 0 {
      if u <= planned[n - 1] {
        NoneMissed(slots, nows, planned, n - 1, u);
        assert planned[..n] == planned[..n + 1][..n];
      } else {
        assert EndsBeforeNext(slots, planned[n - 1], nows[n]);
        var next := NextExists(slots, planned[n - 1]);
      }
    }
  }

  lemma NextExists(slots: seq<int>, now: int) returns (t: int)
    requires ValidSlots(slots)
    ensures IsNext(slots, now, t)
  {
    var hour := (now % DAY) / HOUR;
    if forall i | 0 <= i < |slots| :: slots[i] <= hour {
      TomorrowsNext(slots, now);
      t := At(now / DAY + 1, slots[0]);
    } else {
      var k := FirstAbove(slots, hour, 0);
      TodaysNext(slots, now, k);
      t := At(now / DAY, slots[k]);
    }
  }

  lemma FirstAbove(slots: seq<int>, hour: int, from: nat) returns (k: nat)
    requires exists i | from <= i < |slots| :: slots[i] > hour
    requires forall i | 0 <= i < from && i < |slots| :: slots[i] <= hour
    ensures k < |slots| && slots[k] > hour && forall i | 0 <= i < k :: slots[i] <= hour
    decreases |slots| - from
  {
    if slots[from] > hour {
      k := from;
    } else {
      k := FirstAbove(slots, hour, from + 1);
    }
  }
}
