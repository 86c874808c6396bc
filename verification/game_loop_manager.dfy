/**
 * core/game_loop_manager.go: a loop over three periodic events. Each
 * iteration fires the most overdue event, or, when none is due, sleeps until
 * the nearest one is. The clock is a parameter and the callbacks are left to
 * the caller, which the outcome of an iteration names.
 */
module LoopManager {
  import opened GoInt

  /** The number of events the manager holds (`[3]GameEvent`). */
  const EventSlots: int := 3

  /** The longest time `Iterate` will consider sleeping: 1e12 ns. */
  const MaxTimeTillNextEvent: int := 1_000_000_000_000

  /** `GameEvent` without its callback; times are in nanoseconds. */
  datatype GameEvent = GameEvent(
    name: string,
    period: int,
    lastCallTime: int,
    delta: int,
    overshoot: int,
    callCount: int,
    elapsedOvershoot: int)

  /** `CreateGameEvent`: a named event with a period and every other field zero. */
  function CreateGameEvent(name: string, period: int): (e: GameEvent)
    ensures e.name == name && e.period == period
    ensures e.callCount == 0 && e.elapsedOvershoot == 0
    ensures e.lastCallTime == 0 && e.delta == 0 && e.overshoot == 0
  {
    GameEvent(name, period, 0, 0, 0, 0, 0)
  }

  /** How far past its due time the event is at `now` (negative while not yet due). */
  function OvershootAt(e: GameEvent, now: int): int {
    now - e.lastCallTime - e.period
  }

  /** The first pass of `Iterate` on one event: its delta and overshoot at `now`. */
  function Refresh(e: GameEvent, now: int): (r: GameEvent)
    ensures r.delta == now - e.lastCallTime && r.overshoot == OvershootAt(e, now)
    ensures r.(delta := e.delta, overshoot := e.overshoot) == e
  {
    var delta := now - e.lastCallTime;
    e.(delta := delta, overshoot := delta - e.period)
  }

  function RefreshAll(es: seq<GameEvent>, now: int): (rs: seq<GameEvent>)
    ensures |rs| == |es| && forall i :: 0 <= i < |es| ==> rs[i] == Refresh(es[i], now)
  {
    seq(|es|, i requires 0 <= i < |es| => Refresh(es[i], now))
  }

  /**
   * The search of `Iterate` over the first n events: the largest overshoot
   * above -1 and its index, the earliest on ties, or (-1, -1) when none of
   * them is due.
   */
  function Pick(es: seq<GameEvent>, n: nat): (r: (int, int))
    requires n <= |es|
    ensures -1 <= r.1 < n
    ensures r.1 == -1 ==> r.0 == -1
    ensures r.1 >= 0 ==> r.0 >= 0
    ensures r.1 >= 0 ==> r.0 == es[r.1].overshoot
  {
    if n == 0 then (-1, -1)
    else
      var r := Pick(es, n - 1);
      if es[n - 1].overshoot > r.0 then (es[n - 1].overshoot, n - 1) else r
  }

  /**
   * The event `Iterate` fires: an event is fired exactly when one is due, and
   * it is the first of those with the largest overshoot.
   */
  lemma {:induction false} PickIsFirstMax(es: seq<GameEvent>, n: nat)
    requires n <= |es|
    ensures var k := Pick(es, n).1;
      && (k == -1 <==> forall i :: 0 <= i < n ==> es[i].overshoot < 0)
      && (k >= 0 ==>
            && es[k].overshoot >= 0
            && (forall i :: 0 <= i < k ==> es[i].overshoot < es[k].overshoot)
            && (forall i :: k < i < n ==> es[i].overshoot <= es[k].overshoot))
  {
    if n > 0 {
      PickIsFirstMax(es, n - 1);
    }
  }

  /**
   * The second pass of `Iterate` over the first n events: the least time
   * until one of them is due, starting from 1e12.
   */
  function TimeTillNext(es: seq<GameEvent>, n: nat): (t: int)
    requires n <= |es|
    ensures t <= MaxTimeTillNextEvent
  {
    if n == 0 then MaxTimeTillNextEvent
    else
      var t := TimeTillNext(es, n - 1);
      if t > -es[n - 1].overshoot then -es[n - 1].overshoot else t
  }

  /**
   * The time till the next event is the least of 1e12 and of every event's
   * time till due; when no event is due, it is at least 1 ns.
   */
  lemma {:induction false} TimeTillNextIsLeast(es: seq<GameEvent>, n: nat)
    requires n <= |es|
    ensures forall i :: 0 <= i < n ==> TimeTillNext(es, n) <= -es[i].overshoot
    ensures TimeTillNext(es, n) == MaxTimeTillNextEvent
      || exists i :: 0 <= i < n && TimeTillNext(es, n) == -es[i].overshoot
    ensures (forall i :: 0 <= i < n ==> es[i].overshoot < 0) ==> TimeTillNext(es, n) >= 1
  {
    if n > 0 {
      TimeTillNextIsLeast(es, n - 1);
    }
  }

  /**
   * Firing an event at `now`: its last-call time moves back from `now` by its
   * overshoot clamped to its period, so that lateness does not accumulate,
   * and the call is counted.
   */
  function Fire(e: GameEvent, now: int): (f: GameEvent)
    ensures f.(lastCallTime := e.lastCallTime, callCount := e.callCount, elapsedOvershoot := e.elapsedOvershoot) == e
  {
    var clampedOvershoot := Min(e.overshoot, e.period);
    e.(lastCallTime := now - clampedOvershoot,
       callCount := e.callCount + 1,
       elapsedOvershoot := e.elapsedOvershoot + clampedOvershoot)
  }

  /**
   * A due event with a non-negative period, once fired, is due again within
   * one period: at most `period` from now and no earlier than now.
   */
  lemma FiredIsDueWithinPeriod(e: GameEvent, now: int)
    requires e.overshoot >= 0 && e.period >= 0
    ensures var f := Fire(e, now);
      && now <= f.lastCallTime + f.period <= now + f.period
      && f.callCount == e.callCount + 1
      && e.elapsedOvershoot <= f.elapsedOvershoot <= e.elapsedOvershoot + e.period
  {
  }

  /** The sum of the call counts of the events. */
  function CallCounts(es: seq<GameEvent>): int {
    if es == [] then 0 else CallCounts(es[..|es| - 1]) + es[|es| - 1].callCount
  }

  /** Changing one event's call count changes the sum by the same amount. */
  lemma {:induction false} CallCountsUpdate(es: seq<GameEvent>, k: int, e: GameEvent)
    requires 0 <= k < |es|
    ensures CallCounts(es[k := e]) == CallCounts(es) - es[k].callCount + e.callCount
    decreases |es|
  {
    var last := |es| - 1;
    assert es[k := e][..last] == if k == last then es[..last] else es[..last][k := e];
    if k < last {
      CallCountsUpdate(es[..last], k, e);
    }
  }

  /** Refreshing the events leaves their call counts alone. */
  lemma {:induction false} CallCountsRefresh(es: seq<GameEvent>, now: int)
    ensures CallCounts(RefreshAll(es, now)) == CallCounts(es)
    decreases |es|
  {
    if es != [] {
      var last := |es| - 1;
      assert RefreshAll(es, now)[..last] == RefreshAll(es[..last], now);
      CallCountsRefresh(es[..last], now);
    }
  }

  /** What an iteration of the manager asks its caller to do. */
  datatype Outcome =
    | FireEvent(index: int)    // run the callback of this event
    | SleepFor(duration: int)  // sleep this long
    | SkipSleep                // the next event is too close to sleep for

  /** `GameLoopManager` without its quit channel. */
  class GameLoopManager {
    var iterations: int
    var sleepCount: int
    var noSleepCount: int
    var elapsedSleepDuration: int
    var elapsedTimeTillNextEvent: int
    var events: array<GameEvent>
    var sleepUndershoot: int

    ghost predicate Valid()
      reads this
    {
      events.Length == EventSlots
    }

    /**
     * Every iteration either fired an event (and counted a call) or slept or
     * skipped sleeping: the counts add up to the number of iterations.
     */
    ghost predicate Counted()
      reads this, events
    {
      iterations == CallCounts(events[..]) + sleepCount + noSleepCount
    }

    /** The zero value `GameLoopManager{}`: three empty events and no statistics. */
    constructor ()
      ensures Valid() && fresh(events) && Counted()
      ensures iterations == 0 && sleepCount == 0 && noSleepCount == 0
      ensures elapsedSleepDuration == 0 && elapsedTimeTillNextEvent == 0 && sleepUndershoot == 0
      ensures forall i :: 0 <= i < EventSlots ==> events[i] == CreateGameEvent("", 0)
    {
      iterations, sleepCount, noSleepCount := 0, 0, 0;
      elapsedSleepDuration, elapsedTimeTillNextEvent, sleepUndershoot := 0, 0, 0;
      events := new GameEvent[EventSlots](_ => CreateGameEvent("", 0));
      new;
      var empty := CreateGameEvent("", 0);
      assert events[..] == [empty, empty, empty];
      assert [empty, empty, empty][..2] == [empty, empty] && [empty, empty][..1] == [empty];
      assert CallCounts([empty]) == 0;
      assert CallCounts([empty, empty]) == 0;
    }

    /** `Initialise`: copies the three events in and sets the undershoot; the statistics stay. */
    method Initialise(evs: seq<GameEvent>, undershoot: int)
      requires Valid() && |evs| == EventSlots
      modifies this, events
      ensures Valid() && events == old(events) && events[..] == evs
      ensures sleepUndershoot == undershoot
      ensures iterations == old(iterations) && sleepCount == old(sleepCount) && noSleepCount == old(noSleepCount)
      ensures elapsedSleepDuration == old(elapsedSleepDuration)
      ensures elapsedTimeTillNextEvent == old(elapsedTimeTillNextEvent)
    {
      forall i | 0 <= i < EventSlots {
        events[i] := evs[i];
      }
      sleepUndershoot := undershoot;
    }

    /**
     * The start of `Run` at clock reading `now`: every event's last call is
     * put one period back, so that every event is due at once with an
     * overshoot of exactly 0, and the first iteration fires the first event.
     */
    method Start(now: int)
      requires Valid()
      modifies events
      ensures Valid()
      ensures forall i :: 0 <= i < EventSlots ==>
        events[i] == old(events[i]).(lastCallTime := now - old(events[i]).period)
      ensures forall i :: 0 <= i < EventSlots ==> OvershootAt(events[i], now) == 0
      ensures Pick(RefreshAll(events[..], now), EventSlots) == (0, 0)
    {
      for i := 0 to EventSlots
        invariant forall j :: 0 <= j < i ==> events[j] == old(events[j]).(lastCallTime := now - old(events[j]).period)
        invariant forall j :: i <= j < EventSlots ==> events[j] == old(events[j])
      {
        events[i] := events[i].(lastCallTime := now - events[i].period);
      }
      ghost var rs := RefreshAll(events[..], now);
      assert Pick(rs, 1) == (0, 0);
      assert Pick(rs, 2) == (0, 0);
    }

    /**
     * `Iterate` at clock reading `now`: refresh every event's delta and
     * overshoot; fire the first event with the largest overshoot if any is
     * due; otherwise add the time till the next event to the running total
     * and sleep for it less the undershoot when that is positive.
     */
    method Iterate(now: int) returns (outcome: Outcome)
      requires Valid()
      modifies this, events
      ensures Valid() && events == old(events) && sleepUndershoot == old(sleepUndershoot)
      ensures iterations == old(iterations) + 1
      ensures var refreshed := RefreshAll(old(events[..]), now);
        var k := Pick(refreshed, EventSlots).1;
        && (k >= 0 ==>
              && outcome == FireEvent(k)
              && events[..] == refreshed[k := Fire(refreshed[k], now)]
              && sleepCount == old(sleepCount) && noSleepCount == old(noSleepCount)
              && elapsedSleepDuration == old(elapsedSleepDuration)
              && elapsedTimeTillNextEvent == old(elapsedTimeTillNextEvent))
        && (k < 0 ==>
              var t := TimeTillNext(refreshed, EventSlots);
              var sleep := t - sleepUndershoot;
              && events[..] == refreshed
              && elapsedTimeTillNextEvent == old(elapsedTimeTillNextEvent) + t
              && (sleep > 0 ==>
                    (&& outcome == SleepFor(sleep)
                     && sleepCount == old(sleepCount) + 1 && noSleepCount == old(noSleepCount)
                     && elapsedSleepDuration == old(elapsedSleepDuration) + sleep))
              && (sleep <= 0 ==>
                    (&& outcome == SkipSleep
                     && sleepCount == old(sleepCount) && noSleepCount == old(noSleepCount) + 1
                     && elapsedSleepDuration == old(elapsedSleepDuration))))
      ensures old(Counted()) ==> Counted()
    {
      ghost var refreshed := RefreshAll(events[..], now);
      CallCountsRefresh(events[..], now);
      var maxOvershootIndex := RefreshEvents(now);
      if maxOvershootIndex >= 0 {
        var event := events[maxOvershootIndex];
        var clampedOvershoot := Min(event.overshoot, event.period);
        events[maxOvershootIndex] := event.(lastCallTime := now - clampedOvershoot,
                                            callCount := event.callCount + 1,
                                            elapsedOvershoot := event.elapsedOvershoot + clampedOvershoot);
        CallCountsUpdate(refreshed, maxOvershootIndex, events[maxOvershootIndex]);
        outcome := FireEvent(maxOvershootIndex);
      } else {
        var minTimeTillNextEvent := TimeTillNextEvent();
        var sleepDuration := minTimeTillNextEvent - sleepUndershoot;
        elapsedTimeTillNextEvent := elapsedTimeTillNextEvent + minTimeTillNextEvent;
        if sleepDuration > 0 {
          sleepCount := sleepCount + 1;
          elapsedSleepDuration := elapsedSleepDuration + sleepDuration;
          outcome := SleepFor(sleepDuration);
        } else {
          noSleepCount := noSleepCount + 1;
          outcome := SkipSleep;
        }
      }
      iterations := iterations + 1;
    }

    /** The first pass of `Iterate`: refresh every event and find the one to fire, or -1. */
    method RefreshEvents(now: int) returns (maxOvershootIndex: int)
      requires Valid()
      modifies events
      ensures events[..] == RefreshAll(old(events[..]), now)
      ensures maxOvershootIndex == Pick(events[..], EventSlots).1
    {
      ghost var refreshed := RefreshAll(events[..], now);
      var maxOvershoot := -1;
      maxOvershootIndex := -1;
      for i := 0 to EventSlots
        invariant events[..i] == refreshed[..i] && events[i..] == old(events[i..])
        invariant (maxOvershoot, maxOvershootIndex) == Pick(refreshed, i)
      {
        var delta := now - events[i].lastCallTime;
        var overshoot := delta - events[i].period;
        events[i] := events[i].(delta := delta, overshoot := overshoot);
        if overshoot > maxOvershoot {
          maxOvershoot := overshoot;
          maxOvershootIndex := i;
        }
      }
      assert events[..] == refreshed;
    }

    /** The second pass of `Iterate`: the least time till an event is due, at most 1e12. */
    method TimeTillNextEvent() returns (minTimeTillNextEvent: int)
      requires Valid()
      ensures minTimeTillNextEvent == TimeTillNext(events[..], EventSlots)
    {
      minTimeTillNextEvent := MaxTimeTillNextEvent;
      for i := 0 to EventSlots
        invariant minTimeTillNextEvent == TimeTillNext(events[..], i)
      {
        var overshoot := -events[i].overshoot;
        if minTimeTillNextEvent > overshoot {
          minTimeTillNextEvent := overshoot;
        }
      }
    }
  }

  /** An iteration that sleeps does so because no event is due, and for no longer than 1e12 ns. */
  lemma SleepOnlyWhenNoneDue(es: seq<GameEvent>, now: int, undershoot: int)
    requires |es| == EventSlots && Pick(RefreshAll(es, now), EventSlots).1 < 0
    ensures forall i :: 0 <= i < EventSlots ==> OvershootAt(es[i], now) < 0
    ensures 1 <= TimeTillNext(RefreshAll(es, now), EventSlots) <= MaxTimeTillNextEvent
    ensures undershoot >= 0 ==> TimeTillNext(RefreshAll(es, now), EventSlots) - undershoot <= MaxTimeTillNextEvent
  {
    var rs := RefreshAll(es, now);
    PickIsFirstMax(rs, EventSlots);
    TimeTillNextIsLeast(rs, EventSlots);
  }
}
