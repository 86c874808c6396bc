/**
 * core/game_loop.go: the statistics of the fixed-rate loop, one decision step
 * of `RunGameLoop` (with the clock reading passed in and the callbacks left to
 * the caller), and `Update`, one simulation step of a scene.
 */
module GameLoop {
  import opened GoInt
  import opened Game
  import opened Cells
  import opened BlockUpdates
  import opened WorldModel
  import opened UserInput

  /** `RunStatistics`; durations are in nanoseconds. */
  datatype RunStatistics = RunStatistics(
    iterations: int,
    updateCount: int,
    renderCount: int,
    sleepDuration: int,
    sleepCount: int,
    noSleepCount: int,
    updateOvershoot: int,
    renderOvershoot: int)
  {
    /** `EventCount`: updates and renders together. */
    function EventCount(): (n: int)
      ensures updateCount >= 0 && renderCount >= 0 ==> n >= updateCount && n >= renderCount
      ensures n == 0 && updateCount >= 0 && renderCount >= 0 ==> updateCount == 0 && renderCount == 0
    {
      updateCount + renderCount
    }

    function AvgSleepDuration(): (a: int)
      ensures EventCount() == 0 ==> a == 0
    {
      Average(sleepDuration, EventCount())
    }

    function AvgUpdateOvershoot(): (a: int)
      ensures updateCount == 0 ==> a == 0
    {
      Average(updateOvershoot, updateCount)
    }

    function AvgRenderOvershoot(): (a: int)
      ensures renderCount == 0 ==> a == 0
    {
      Average(renderOvershoot, renderCount)
    }
  }

  /** The zero value `RunStatistics{}`. */
  const NoStatistics := RunStatistics(0, 0, 0, 0, 0, 0, 0, 0)

  /**
   * The average of a total over a count, as the statistics compute it: 0 for
   * a count of 0, otherwise Go's quotient, truncated toward zero.
   */
  function Average(total: int, count: int): (a: int)
    ensures count == 0 ==> a == 0
    ensures count > 0 && total >= 0 ==> a * count <= total < a * count + count
    ensures count > 0 && total < 0 ==> a * count - count < total <= a * count
  {
    if count == 0 then 0
    else
      QuoRem(total, count);
      Quo(total, count)
  }

  /** What a step of `RunGameLoop` asks its caller to do. */
  datatype Action =
    | CallUpdate(delta: int)   // run the update callback with this delta
    | CallRender(delta: int)   // run the render callback, then sleep 1 ms
    | Sleep(duration: int)     // sleep this long
    | NoSleep                  // the next event is too close to sleep for

  /** The state `RunGameLoop` keeps between steps: two last-call times and the statistics. */
  class FixedRateLoop {
    const updateIntervalNs: int
    const renderIntervalNs: int
    const sleepUndershootNs: int
    var lastUpdate: int
    var lastRender: int
    var stats: RunStatistics

    /**
     * The start of `RunGameLoop`: both events are due at once. The clock is
     * read once for each last-call time, so two readings are passed in.
     */
    constructor (updateInterval: int, renderInterval: int, sleepUndershoot: int, updateClock: int, renderClock: int)
      ensures updateIntervalNs == updateInterval && renderIntervalNs == renderInterval && sleepUndershootNs == sleepUndershoot
      ensures lastUpdate == updateClock - updateInterval && lastRender == renderClock - renderInterval
      ensures stats == NoStatistics
    {
      updateIntervalNs := updateInterval;
      renderIntervalNs := renderInterval;
      sleepUndershootNs := sleepUndershoot;
      lastUpdate := updateClock - updateInterval;
      lastRender := renderClock - renderInterval;
      stats := NoStatistics;
    }

    /** How far past its due time the update is at `now` (negative while not yet due). */
    function UpdateOvershoot(now: int): int
      reads this
    {
      now - lastUpdate - updateIntervalNs
    }

    function RenderOvershoot(now: int): int
      reads this
    {
      now - lastRender - renderIntervalNs
    }

    /**
     * One pass of the loop in `RunGameLoop` at clock reading `now`: update
     * when the update is due and more overdue than the render, else render
     * when the render is due, else sleep until the nearer of the two less
     * the undershoot. The fired event's last-call time moves back by its
     * overshoot clamped to the update interval, in both branches.
     */
    method Step(now: int) returns (action: Action)
      modifies this
      ensures var uo, ro := old(UpdateOvershoot(now)), old(RenderOvershoot(now));
        && (action.CallUpdate? <==> uo > ro && uo >= 0)
        && (action.CallRender? <==> !(uo > ro && uo >= 0) && ro >= 0)
        && (action.CallUpdate? ==>
              && action.delta == now - old(lastUpdate)
              && lastUpdate == now - Min(uo, updateIntervalNs) && lastRender == old(lastRender)
              && stats == old(stats).(iterations := old(stats.iterations) + 1,
                                      updateCount := old(stats.updateCount) + 1,
                                      updateOvershoot := old(stats.updateOvershoot) + Min(uo, updateIntervalNs)))
        && (action.CallRender? ==>
              && action.delta == now - old(lastRender)
              && lastRender == now - Min(ro, updateIntervalNs) && lastUpdate == old(lastUpdate)
              && stats == old(stats).(iterations := old(stats.iterations) + 1,
                                      renderCount := old(stats.renderCount) + 1,
                                      renderOvershoot := old(stats.renderOvershoot) + Min(ro, updateIntervalNs)))
        && (uo < 0 && ro < 0 ==>
              var sleep := Min(-uo, -ro) - sleepUndershootNs;
              && lastUpdate == old(lastUpdate) && lastRender == old(lastRender)
              && (sleep > 0 ==>
                    (&& action == Sleep(sleep)
                     && stats == old(stats).(iterations := old(stats.iterations) + 1,
                                             sleepCount := old(stats.sleepCount) + 1,
                                             sleepDuration := old(stats.sleepDuration) + sleep)))
              && (sleep <= 0 ==>
                    (&& action == NoSleep
                     && stats == old(stats).(iterations := old(stats.iterations) + 1,
                                             noSleepCount := old(stats.noSleepCount) + 1))))
      ensures Balanced(old(stats)) ==> Balanced(stats)
    {
      var updateDelta := now - lastUpdate;
      var renderDelta := now - lastRender;
      var updateOvershoot := updateDelta - updateIntervalNs;
      var renderOvershoot := renderDelta - renderIntervalNs;
      if updateOvershoot > renderOvershoot && updateOvershoot >= 0 {
        var clampedOvershoot := Min(updateOvershoot, updateIntervalNs);
        lastUpdate := now - clampedOvershoot;
        stats := stats.(updateOvershoot := stats.updateOvershoot + clampedOvershoot,
                        updateCount := stats.updateCount + 1);
        action := CallUpdate(updateDelta);
      } else if renderOvershoot >= 0 {
        var clampedOvershoot := Min(renderOvershoot, updateIntervalNs);
        lastRender := now - clampedOvershoot;
        stats := stats.(renderOvershoot := stats.renderOvershoot + clampedOvershoot,
                        renderCount := stats.renderCount + 1);
        action := CallRender(renderDelta);
      } else {
        var timeTillNextUpdate := -updateOvershoot;
        var timeTillNextRender := -renderOvershoot;
        var timeTillNextEvent := Min(timeTillNextUpdate, timeTillNextRender);
        var sleepDuration := timeTillNextEvent - sleepUndershootNs;
        if sleepDuration > 0 {
          stats := stats.(sleepDuration := stats.sleepDuration + sleepDuration,
                          sleepCount := stats.sleepCount + 1);
          action := Sleep(sleepDuration);
        } else {
          stats := stats.(noSleepCount := stats.noSleepCount + 1);
          action := NoSleep;
        }
      }
      stats := stats.(iterations := stats.iterations + 1);
    }
  }

  /**
   * Counted events: each step counts exactly one of an update, a render, a
   * sleep or a skipped sleep, so the four counters always add up to the
   * number of steps.
   */
  predicate Balanced(s: RunStatistics) {
    s.iterations == s.updateCount + s.renderCount + s.sleepCount + s.noSleepCount
  }

  /** The fired event is clamped so that it falls due again within one interval (when the interval is not negative). */
  lemma ClampedDue(now: int, overshoot: int, interval: int)
    requires overshoot >= 0 && interval >= 0
    ensures var last := now - Min(overshoot, interval);
      now <= last + interval <= now + interval
  {
  }

  /** The most rounds of sub-updates `Update` runs. */
  const MaxSubUpdateIterations: int := 50

  /**
   * The sub-update loop of `Update` from round i with `total` sub-updates so
   * far: each round applies `subUpdate` to the world and adds its count, and
   * the loop stops after a round that counts 0 or after 50 rounds. The result
   * is the number of completed rounds, the world and the total.
   */
  function SubUpdateRounds(subUpdate: Cells -> (Cells, int), cells: Cells, i: int, total: int): (r: (int, Cells, int))
    ensures i <= MaxSubUpdateIterations ==> i <= r.0 <= MaxSubUpdateIterations
    decreases MaxSubUpdateIterations - i
  {
    if i >= MaxSubUpdateIterations then (i, cells, total)
    else
      var next := subUpdate(cells);
      if next.1 == 0 then (i, next.0, total)
      else SubUpdateRounds(subUpdate, next.0, i + 1, total + next.1)
  }

  /** A world the sub-update leaves alone with a count of 0 stops the loop at once, unchanged. */
  lemma SubUpdatesStopAtRest(subUpdate: Cells -> (Cells, int), cells: Cells, total: int)
    requires subUpdate(cells) == (cells, 0)
    ensures SubUpdateRounds(subUpdate, cells, 0, total) == (0, cells, total)
  {
  }

  /** With non-negative counts, the total only grows and every completed round counted at least 1. */
  lemma {:induction false} SubUpdateTotal(subUpdate: Cells -> (Cells, int), cells: Cells, i: int, total: int)
    requires 0 <= i <= MaxSubUpdateIterations
    requires forall c: Cells :: subUpdate(c).1 >= 0
    ensures var r := SubUpdateRounds(subUpdate, cells, i, total);
      r.2 >= total + (r.0 - i)
    decreases MaxSubUpdateIterations - i
  {
    if i < MaxSubUpdateIterations && subUpdate(cells).1 != 0 {
      SubUpdateTotal(subUpdate, subUpdate(cells).0, i + 1, total + subUpdate(cells).1);
    }
  }

  /** The sub-update loop of `Update`, run on the world in place. */
  method SubUpdateLoop(world: World, maxSubUpdateIterations: int, subUpdate: Cells -> (Cells, int))
    returns (i: int, totalSubUpdates: int)
    requires world.Valid() && maxSubUpdateIterations == MaxSubUpdateIterations
    modifies world.blocks
    ensures world.Valid() && world.blocks == old(world.blocks)
    ensures (i, world.Contents(), totalSubUpdates) == SubUpdateRounds(subUpdate, old(world.Contents()), 0, 0)
  {
    ghost var start := world.Contents();
    totalSubUpdates := 0;
    i := 0;
    while i < maxSubUpdateIterations
      invariant world.Valid() && world.blocks == old(world.blocks)
      invariant 0 <= i <= MaxSubUpdateIterations
      invariant SubUpdateRounds(subUpdate, world.Contents(), i, totalSubUpdates) == SubUpdateRounds(subUpdate, start, 0, 0)
    {
      var numSubUpdates := subUpdate(world.blocks[..]);
      world.Overwrite(numSubUpdates.0);
      totalSubUpdates := totalSubUpdates + numSubUpdates.1;
      if numSubUpdates.1 == 0 {
        break;
      }
      i := i + 1;
    }
  }

  /**
   * The world part of an active `Update`: the scripted input for this
   * iteration, the sub-update rounds, then one `UpdateWorld`. The update
   * count is the input's update (if any) plus the updates of `UpdateWorld`.
   */
  method Advance(world: World, iteration: int, subUpdate: Cells -> (Cells, int))
    returns (numUpdates: int, i: int, totalSubUpdates: int)
    requires world.Valid()
    modifies world, world.blocks
    ensures world.Valid()
    ensures var input := InputCells(iteration, old(world.Contents()));
      var rounds := SubUpdateRounds(subUpdate, input, 0, 0);
      && i == rounds.0 <= MaxSubUpdateIterations
      && totalSubUpdates == rounds.2
      && world.Contents() == NextCells(rounds.1)
      && numUpdates == (if InputFires(iteration) then 1 else 0) + CountUpdates(rounds.1, CellCount)
  {
    var maxSubUpdateIterations := 50;
    numUpdates := 0;
    var inputUpdated := ProcessUserInputs(iteration, world);
    if inputUpdated {
      numUpdates := numUpdates + 1;
    }
    i, totalSubUpdates := SubUpdateLoop(world, maxSubUpdateIterations, subUpdate);
    var worldUpdates := world.UpdateWorld();
    numUpdates := numUpdates + worldUpdates;
  }

  predicate Active(g: GameState) {
    g == Playing || g == Pausing
  }

  /** The part of `Scene` that `Update` reads and writes. */
  class Scene {
    var gameState: GameState
    var iteration: int
    var world: World
    var numBlockUpdatesInStep: int
    var numBlockSubUpdatesInStep: int
    var numBlockSubUpdateIterationsInStep: int

    ghost predicate Valid()
      reads this, world
    {
      world.Valid()
    }

    constructor (w: World, g: GameState)
      requires w.Valid()
      ensures Valid() && world == w && gameState == g && iteration == 0
      ensures numBlockUpdatesInStep == 0 && numBlockSubUpdatesInStep == 0 && numBlockSubUpdateIterationsInStep == 0
    {
      world := w;
      gameState := g;
      iteration := 0;
      numBlockUpdatesInStep := 0;
      numBlockSubUpdatesInStep := 0;
      numBlockSubUpdateIterationsInStep := 0;
    }

    /**
     * `Update`: nothing unless the game is playing or pausing. Otherwise the
     * scripted input for this iteration, at most 50 rounds of sub-updates
     * (`subUpdate` stands for `World.SubUpdateWorld`, which is not part of
     * this model), one `UpdateWorld`, then the next iteration; a pausing
     * game becomes paused.
     */
    method Update(subUpdate: Cells -> (Cells, int))
      requires Valid()
      modifies this, world, world.blocks
      ensures Valid() && world == old(world)
      ensures !Active(old(gameState)) ==>
        && gameState == old(gameState) && iteration == old(iteration)
        && world.blocks == old(world.blocks) && world.Contents() == old(world.Contents())
        && numBlockUpdatesInStep == old(numBlockUpdatesInStep)
        && numBlockSubUpdatesInStep == old(numBlockSubUpdatesInStep)
        && numBlockSubUpdateIterationsInStep == old(numBlockSubUpdateIterationsInStep)
      ensures Active(old(gameState)) ==>
        var input := InputCells(old(iteration), old(world.Contents()));
        var rounds := SubUpdateRounds(subUpdate, input, 0, 0);
        && numBlockSubUpdateIterationsInStep == rounds.0 <= MaxSubUpdateIterations
        && numBlockSubUpdatesInStep == rounds.2
        && world.Contents() == NextCells(rounds.1)
        && numBlockUpdatesInStep == (if InputFires(old(iteration)) then 1 else 0) + CountUpdates(rounds.1, CellCount)
        && iteration == old(iteration) + 1
        && gameState == (if old(gameState) == Pausing then Paused else Playing)
    {
      if gameState != Playing && gameState != Pausing {
        return;
      }
      var numUpdates, i, totalSubUpdates := Advance(world, iteration, subUpdate);
      numBlockSubUpdateIterationsInStep := i;
      numBlockSubUpdatesInStep := totalSubUpdates;
      numBlockUpdatesInStep := numUpdates;
      iteration := iteration + 1;
      if gameState == Pausing {
        gameState := Paused;
      }
    }
  }
}
