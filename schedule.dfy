// The scene's delayed calls as a list of pending events on a logical clock.
// An event fires at its time; the clock always fires the earliest pending
// event, and among events due at the same time the one scheduled first.

module Schedule {
  import opened SlotConfig

  /** What a delayed call does when it fires. */
  datatype Action =
    | StartReel(reel: nat)   // startSpin(reels[reel])
    | StopAll                // the stop callback of spinReels
    | RevertWrapper          // reset of the frame's stroke after a round
    | RevertCredit           // reset of the credit text after a round

  datatype Event = Event(fireAt: nat, action: Action)

  predicate IsRevert(a: Action) {
    a.RevertWrapper? || a.RevertCredit?
  }

  /** Index of the event that fires next: the earliest time, the first scheduled among ties. */
  function Earliest(events: seq<Event>): (k: nat)
    requires |events| > 0
    ensures k < |events|
    ensures forall l :: 0 <= l < |events| ==> events[k].fireAt <= events[l].fireAt
    ensures forall l :: 0 <= l < k ==> events[k].fireAt < events[l].fireAt
    decreases |events|
  {
    if |events| == 1 then 0
    else
      var k := Earliest(events[1..]) + 1;
      if events[0].fireAt <= events[k].fireAt then 0 else k
  }

  function RemoveAt(events: seq<Event>, k: nat): (r: seq<Event>)
    requires k < |events|
    ensures |r| == |events| - 1
    ensures multiset(r) + multiset{events[k]} == multiset(events)
  {
    assert events == events[..k] + [events[k]] + events[k + 1..];
    events[..k] + events[k + 1..]
  }

  /** The order in which the pending events fire when nothing new is scheduled. */
  function FiringOrder(events: seq<Event>): seq<Event>
    decreases |events|
  {
    if events == [] then []
    else
      var k := Earliest(events);
      [events[k]] + FiringOrder(RemoveAt(events, k))
  }

  predicate ByTime(events: seq<Event>) {
    forall i, j :: 0 <= i < j < |events| ==> events[i].fireAt <= events[j].fireAt
  }

  /** Every event fires: the firing order is a permutation of the pending events. */
  lemma {:induction false} FiringOrderIsPermutation(events: seq<Event>)
    ensures multiset(FiringOrder(events)) == multiset(events)
    decreases |events|
  {
    if events != [] {
      var k := Earliest(events);
      FiringOrderIsPermutation(RemoveAt(events, k));
    }
  }

  /** Whatever fires was pending. */
  lemma FiresOnlyPending(events: seq<Event>)
    ensures forall e :: e in FiringOrder(events) ==> e in events
  {
    FiringOrderIsPermutation(events);
    forall e | e in FiringOrder(events)
      ensures e in events
    {
      assert e in multiset(FiringOrder(events));
    }
  }

  /** An event due no later than every event of a time-ordered list can go in front of it. */
  lemma ConsByTime(first: Event, rest: seq<Event>)
    requires ByTime(rest)
    requires forall e :: e in rest ==> first.fireAt <= e.fireAt
    ensures ByTime([first] + rest)
  {
    var all := [first] + rest;
    forall i, j | 0 <= i < j < |all|
      ensures all[i].fireAt <= all[j].fireAt
    {
      assert all[j] == rest[j - 1];
      if i > 0 {
        assert all[i] == rest[i - 1];
      }
    }
  }

  /** Events fire in non-decreasing order of their times. */
  lemma {:induction false} FiringOrderByTime(events: seq<Event>)
    ensures ByTime(FiringOrder(events))
    decreases |events|
  {
    if events != [] {
      var k := Earliest(events);
      var rest := RemoveAt(events, k);
      FiringOrderByTime(rest);
      FiresOnlyPending(rest);
      RemoveAtSubset(events, k);
      EarliestBeforeAll(events);
      ConsByTime(events[k], FiringOrder(rest));
    }
  }

  /** Events already scheduled in time order fire in the order they were scheduled. */
  lemma {:induction false} ByTimeFiresAsScheduled(events: seq<Event>)
    requires ByTime(events)
    ensures FiringOrder(events) == events
    decreases |events|
  {
    if events != [] {
      ByTimeHead(events);
      var rest := RemoveAt(events, 0);
      assert rest == events[1..];
      ByTimeFiresAsScheduled(rest);
      assert FiringOrder(events) == [events[0]] + rest;
    }
  }

  /** In a time-ordered list the head fires first and the rest stays time-ordered. */
  lemma ByTimeHead(events: seq<Event>)
    requires ByTime(events) && |events| > 0
    ensures Earliest(events) == 0 && ByTime(events[1..])
  {
    var tail := events[1..];
    forall i, j | 0 <= i < j < |tail|
      ensures tail[i].fireAt <= tail[j].fireAt
    {
      assert tail[i] == events[i + 1] && tail[j] == events[j + 1];
    }
  }

  /** The starts of the first n reels: reel i starts i * stagger after the trigger. */
  function StartSchedule(now: nat, n: nat): (r: seq<Event>)
    ensures |r| == n
    ensures forall i :: 0 <= i < n ==> r[i] == Event(now + i * 300, StartReel(i))
  {
    if n == 0 then [] else StartSchedule(now, n - 1) + [Event(now + (n - 1) * 300, StartReel(n - 1))]
  }

  /** The delayed calls of one spin: the three starts, then one stop at the spin duration. */
  function SpinSchedule(now: nat): (r: seq<Event>)
    ensures |r| == ReelCount + 1
    ensures forall i :: 0 <= i < ReelCount ==> r[i] == Event(now + i * 300, StartReel(i))
    ensures r[ReelCount] == Event(now + 2500, StopAll)
  {
    StartSchedule(now, ReelCount) + [Event(now + SpinDurationMs, StopAll)]
  }

  /** Appending the starts and then the stop appends the whole spin schedule. */
  lemma SpinScheduleAppended(events: seq<Event>, now: nat)
    ensures events + StartSchedule(now, ReelCount) + [Event(now + SpinDurationMs, StopAll)] == events + SpinSchedule(now)
  {
  }

  /** The spin's own calls fire as reel 0, reel 1, reel 2, then the stop. */
  lemma SpinScheduleFiresInOrder(now: nat)
    ensures FiringOrder(SpinSchedule(now)) == SpinSchedule(now)
    ensures FiringOrder(SpinSchedule(now))[ReelCount].action == StopAll
  {
    ByTimeFiresAsScheduled(SpinSchedule(now));
  }

  /** The delayed calls of one resolution: the stroke reset, then the credit reset. */
  function RevertSchedule(now: nat, option: RoundOption): seq<Event>
  {
    [Event(now + option.effectDuration, RevertWrapper), Event(now + option.effectDuration, RevertCredit)]
  }

  /** Both resets are due at the same time; the stroke reset, scheduled first, fires first. */
  lemma RevertScheduleFiresInOrder(now: nat, option: RoundOption)
    ensures FiringOrder(RevertSchedule(now, option)) == RevertSchedule(now, option)
  {
    ByTimeFiresAsScheduled(RevertSchedule(now, option));
  }

  /**
   * During a spin the stop is the last pending call, the only stop, and
   * every other pending call fires strictly before it.
   */
  predicate StopLast(events: seq<Event>) {
    |events| > 0 && events[|events| - 1].action.StopAll? &&
    forall k :: 0 <= k < |events| - 1 ==>
      !events[k].action.StopAll? && events[k].fireAt < events[|events| - 1].fireAt
  }

  /**
   * The invariant the scene's timers keep:
   *  - nothing is due in the past, every start names one of the reels, and a
   *    pending reset fires no later than the longest effect duration from now;
   *  - during a spin the stop is pending as StopLast says;
   *  - while idle only resets are pending: no start and no stop.
   */
  predicate WellScheduled(events: seq<Event>, now: nat, spinning: bool) {
    (forall e :: e in events ==> now <= e.fireAt) &&
    (forall e :: e in events && e.action.StartReel? ==> e.action.reel < ReelCount) &&
    (forall e :: e in events && IsRevert(e.action) ==> e.fireAt <= now + MaxEffectDuration) &&
    (if spinning then StopLast(events) else forall e :: e in events ==> IsRevert(e.action))
  }

  /** Triggering a spin while idle schedules its calls without breaking the invariant. */
  lemma SpinKeepsWellScheduled(events: seq<Event>, now: nat)
    requires WellScheduled(events, now, false)
    ensures WellScheduled(events + SpinSchedule(now), now, true)
  {
    var all := events + SpinSchedule(now);
    assert forall k :: 0 <= k < |events| ==> all[k] == events[k] && all[k] in events;
    assert forall k :: |events| <= k < |all| ==> all[k] == SpinSchedule(now)[k - |events|];
  }

  /** Position in the original list of the i-th event left after removing the k-th. */
  lemma RemoveAtIndex(events: seq<Event>, k: nat, i: nat)
    requires k < |events| && i < |events| - 1
    ensures RemoveAt(events, k)[i] == events[if i < k then i else i + 1]
  {
  }

  lemma RemoveAtSubset(events: seq<Event>, k: nat)
    requires k < |events|
    ensures forall e :: e in RemoveAt(events, k) ==> e in events
  {
    forall e | e in RemoveAt(events, k)
      ensures e in events
    {
      assert e in multiset(RemoveAt(events, k));
    }
  }

  /**
   * When the stop fires, every start and every reset has fired before it:
   * it is the only pending call, and a spin was in progress.
   */
  lemma StopFiresAlone(events: seq<Event>, now: nat, spinning: bool)
    requires WellScheduled(events, now, spinning)
    requires |events| > 0 && events[Earliest(events)].action.StopAll?
    ensures spinning && events == [events[Earliest(events)]]
  {
    var k := Earliest(events);
    assert events[k] in events;
    assert events[0].fireAt >= events[k].fireAt;
  }

  /** No pending event is due before the earliest one. */
  lemma EarliestBeforeAll(events: seq<Event>)
    requires |events| > 0
    ensures forall e :: e in events ==> events[Earliest(events)].fireAt <= e.fireAt
  {
    forall e | e in events
      ensures events[Earliest(events)].fireAt <= e.fireAt
    {
      var l :| 0 <= l < |events| && events[l] == e;
    }
  }

  /** Removing a call other than the stop keeps the stop last. */
  lemma RemoveKeepsStopLast(events: seq<Event>, k: nat)
    requires StopLast(events) && k < |events| && !events[k].action.StopAll?
    ensures StopLast(RemoveAt(events, k))
  {
    var rest := RemoveAt(events, k);
    forall i | 0 <= i < |rest|
      ensures rest[i] == events[if i < k then i else i + 1]
    {
      RemoveAtIndex(events, k, i);
    }
  }

  /** Firing a start or a reset leaves the invariant in place at the event's time. */
  lemma FireKeepsWellScheduled(events: seq<Event>, now: nat, spinning: bool)
    requires WellScheduled(events, now, spinning)
    requires |events| > 0 && !events[Earliest(events)].action.StopAll?
    ensures WellScheduled(RemoveAt(events, Earliest(events)), events[Earliest(events)].fireAt, spinning)
  {
    var k := Earliest(events);
    RemoveAtSubset(events, k);
    EarliestBeforeAll(events);
    if spinning {
      RemoveKeepsStopLast(events, k);
    }
  }

  /**
   * After the stop, the two resets of the resolution are the only pending
   * events; neither outcome's effect outlasts MaxEffectDuration.
   */
  lemma ResolutionIsWellScheduled(now: nat, option: RoundOption)
    requires option == RoundWin || option == RoundLoss
    ensures WellScheduled(RevertSchedule(now, option), now, false)
    ensures RevertSchedule(now, option)[0].fireAt < now + SpinDurationMs
  {
  }
}
