/**
 * The `setInterval` counters of pentagram, supernova and the atom: every 50 ms
 * the progress grows by a fixed step (0.05, 0.05 and 0.02) and the interval is
 * cleared on the tick where the progress first reaches 1. The progress is kept
 * as the number of ticks taken, so the step 1/ticks is exact.
 */
module Ramps {
  import JsMath

  datatype Ramp = Ramp(running: bool, steps: nat)

  /** No interval registered, progress 0 (the state a particle is built in). */
  const Idle: Ramp := Ramp(false, 0)

  /** The state right after the effect starts: progress reset to 0, interval registered. */
  const Started: Ramp := Ramp(true, 0)

  /** The source's progress value. */
  function Progress(r: Ramp, ticks: nat): real
    requires ticks > 0
  {
    r.steps as real / ticks as real
  }

  /** A step of 0.05 is a twentieth, a step of 0.02 a fiftieth. */
  lemma ProgressSteps(r: Ramp)
    ensures Progress(r, 20) == r.steps as real * 0.05
    ensures Progress(r, 50) == r.steps as real * 0.02
  {
  }

  /** `progress >= 1` holds exactly when all the ticks have been taken. */
  lemma ProgressReachesOne(r: Ramp, ticks: nat)
    requires ticks > 0
    ensures Progress(r, ticks) >= 1.0 <==> r.steps >= ticks
  {
    var t := ticks as real;
    var p := Progress(r, ticks);
    assert p * t == r.steps as real;
    if p >= 1.0 {
      JsMath.ScaleBelow(1.0, p, t);
    } else {
      JsMath.ScaleAbove(1.0, p, t);
    }
  }

  /** What one interval callback does: the next state, and whether this tick completed the ramp. */
  datatype Beat = Beat(next: Ramp, completed: bool)

  /**
   * One callback: add a step; on reaching 1, clear the interval. A ramp that
   * is not running has no callback registered, so a tick leaves it alone.
   */
  function Tick(r: Ramp, ticks: nat): (b: Beat)
    requires ticks > 0
    ensures b.completed ==> r.running && !b.next.running && Progress(b.next, ticks) >= 1.0
    ensures r.running && !b.completed ==> b.next.running && Progress(b.next, ticks) < 1.0
    ensures r.running ==> Progress(b.next, ticks) == Progress(r, ticks) + 1.0 / ticks as real
    ensures !r.running ==> b == Beat(r, false)
  {
    var next := Ramp(r.steps + 1 < ticks, r.steps + 1);
    ProgressReachesOne(next, ticks);
    if r.running then Beat(next, !next.running) else Beat(r, false)
  }

  /** After n ticks: the last state, on how many ticks the callback ran, and how many completed the ramp. */
  datatype Trace = Trace(last: Ramp, acted: nat, completed: nat)

  function Run(r: Ramp, ticks: nat, n: nat): Trace
    requires ticks > 0
    decreases n
  {
    if n == 0 then Trace(r, 0, 0)
    else
      var t := Run(r, ticks, n - 1);
      var b := Tick(t.last, ticks);
      Trace(b.next, t.acted + (if t.last.running then 1 else 0), t.completed + (if b.completed then 1 else 0))
  }

  function MinNat(a: nat, b: nat): nat { if a <= b then a else b }

  /**
   * Started and ticked n times, the ramp runs for exactly min(n, ticks) ticks,
   * completes exactly once — on tick number `ticks` — and then stays stopped
   * at progress 1.
   */
  lemma {:induction false} RunFromStart(ticks: nat, n: nat)
    requires ticks > 0
    ensures var t := Run(Started, ticks, n);
      && t.last.steps == MinNat(n, ticks)
      && t.last.running == (n < ticks)
      && t.acted == MinNat(n, ticks)
      && t.completed == (if n >= ticks then 1 else 0)
    decreases n
  {
    if n > 0 {
      RunFromStart(ticks, n - 1);
    }
  }

  /** The completing tick is the `ticks`-th one and no other. */
  lemma CompletesOnLastTick(ticks: nat, n: nat)
    requires ticks > 0 && n > 0
    ensures Tick(Run(Started, ticks, n - 1).last, ticks).completed <==> n == ticks
  {
    RunFromStart(ticks, n - 1);
  }

  /**
   * pentagram: after any number of ticks the delayed damage has been dealt at
   * most once, and exactly once from the 20th tick on; supernova likewise.
   */
  lemma PentagramStrikesOnce(n: nat)
    ensures Run(Started, 20, n).completed == (if n >= 20 then 1 else 0)
    ensures Run(Started, 20, n).last.running <==> Progress(Run(Started, 20, n).last, 20) < 1.0
  {
    RunFromStart(20, n);
    ProgressReachesOne(Run(Started, 20, n).last, 20);
  }

  /** The atom deals its damage on each of its first 50 ticks and never after. */
  lemma AtomStrikesFiftyTimes(n: nat)
    ensures Run(Started, 50, n).acted == MinNat(n, 50)
    ensures n >= 50 ==> !Run(Started, 50, n).last.running && Progress(Run(Started, 50, n).last, 50) == 1.0
  {
    RunFromStart(50, n);
  }
}
