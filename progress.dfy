/**
 * The per-event counter update of an advancement trigger: the arithmetic and
 * branching of the event callback once a player and an increment are known,
 * and what a run of events does to the stored counter.
 */
module Progress {
  import opened JavaInt
  import opened GrantModes

  /** A target value: at least 1, and a Java `int`. */
  type Target = x: int | 1 <= x <= MaxInt witness 1

  /** The completion sentinel stored under `AllAtOnce`. */
  const Completed: Int32 := -1

  /** What one event does to the counter: nothing, or write `value` and maybe fire a grant. */
  datatype Update = Keep | Store(value: Int32, fire: bool)

  /**
   * The callback's update of a counter `stored` by an increment `inc`: a
   * non-positive increment and a zero sum change nothing; a sum that reaches
   * the target fires once and stores the sentinel (`AllAtOnce`) or the sum
   * less one target (`StepByStep`). The sum is Java's `int` addition.
   */
  function CounterStep(mode: GrantMode, target: Target, stored: Int32, inc: Int32): Update
  {
    if inc <= 0 then Keep
    else
      var value := Add(stored, inc);
      if value == 0 then Keep
      else if value >= target then
        match mode
        case AllAtOnce => Store(Completed, true)
        case StepByStep => Store(value - target, true)
      else Store(value, false)
  }

  function After(stored: Int32, u: Update): Int32
  {
    if u.Keep? then stored else u.value
  }

  /** The counter after a run of events and the number of grants they fired. */
  datatype Run = Run(final: Int32, fires: nat)

  function Replay(mode: GrantMode, target: Target, stored: Int32, incs: seq<Int32>): Run
    decreases |incs|
  {
    if incs == [] then Run(stored, 0)
    else
      var u := CounterStep(mode, target, stored, incs[0]);
      var rest := Replay(mode, target, After(stored, u), incs[1..]);
      Run(rest.final, rest.fires + if u.Store? && u.fire then 1 else 0)
  }

  /** No event of the run makes Java's `stored + inc` overflow. */
  ghost predicate NoOverflow(mode: GrantMode, target: Target, stored: Int32, incs: seq<Int32>)
    decreases |incs|
  {
    incs == [] ||
    ((incs[0] <= 0 || stored + incs[0] <= MaxInt)
     && NoOverflow(mode, target, After(stored, CounterStep(mode, target, stored, incs[0])), incs[1..]))
  }

  /** The sum of the positive increments of a run: the progress it offers. */
  function Gain(incs: seq<Int32>): int
  {
    if incs == [] then 0 else (if incs[0] > 0 then incs[0] else 0) + Gain(incs[1..])
  }

  // ---------------------------------------------------------------------------
  // One event

  /**
   * Without overflow the update is the source's decision table in exact
   * arithmetic, with `sum = stored + inc`.
   */
  lemma StepTable(mode: GrantMode, target: Target, stored: Int32, inc: Int32)
    requires stored + inc <= MaxInt
    ensures inc <= 0 ==> CounterStep(mode, target, stored, inc) == Keep
    ensures inc > 0 && stored + inc == 0 ==> CounterStep(mode, target, stored, inc) == Keep
    ensures inc > 0 && stored + inc != 0 && stored + inc < target ==>
      CounterStep(mode, target, stored, inc) == Store(stored + inc, false)
    ensures inc > 0 && stored + inc >= target && mode == AllAtOnce ==>
      CounterStep(mode, target, stored, inc) == Store(Completed, true)
    ensures inc > 0 && stored + inc >= target && mode == StepByStep ==>
      CounterStep(mode, target, stored, inc) == Store(stored + inc - target, true)
  {
  }

  /** `AllAtOnce` keeps the counter in [-1, target). */
  lemma AllAtOnceInRange(target: Target, stored: Int32, inc: Int32)
    requires -1 <= stored < target && stored + inc <= MaxInt
    ensures -1 <= After(stored, CounterStep(AllAtOnce, target, stored, inc)) < target
  {
  }

  /**
   * Once completed, an `AllAtOnce` counter meets a unit increment with a zero
   * sum and stays at the sentinel, firing nothing.
   */
  lemma SentinelAbsorbsUnitIncrement(target: Target)
    ensures CounterStep(AllAtOnce, target, Completed, 1) == Keep
  {
  }

  /** `StepByStep` never makes a non-negative counter negative. */
  lemma StepByStepNonNegative(target: Target, stored: Int32, inc: Int32)
    requires 0 <= stored && stored + inc <= MaxInt
    ensures 0 <= After(stored, CounterStep(StepByStep, target, stored, inc))
  {
  }

  /**
   * A `StepByStep` event fires at most once and subtracts the target once, even
   * when the remainder still reaches the target: a large increment is paid out
   * over later events, one criterion each.
   */
  lemma StepByStepFiresOncePerEvent()
    ensures CounterStep(StepByStep, 3, 0, 7) == Store(4, true)
    ensures CounterStep(StepByStep, 3, 4, 1) == Store(2, true)
  {
  }

  /**
   * With overflow the sum wraps: an `AllAtOnce` counter at 5 of 10 that receives
   * the largest increment does not complete, and its stored value turns negative.
   */
  lemma OverflowWrapsCounter()
    ensures CounterStep(AllAtOnce, 10, 5, MaxInt) == Store(-2147483644, false)
  {
  }

  // ---------------------------------------------------------------------------
  // Runs of events

  /** Without overflow an `AllAtOnce` counter never leaves [-1, target). */
  lemma {:induction false} AllAtOnceRunInRange(target: Target, stored: Int32, incs: seq<Int32>)
    requires -1 <= stored < target
    requires NoOverflow(AllAtOnce, target, stored, incs)
    ensures -1 <= Replay(AllAtOnce, target, stored, incs).final < target
    decreases |incs|
  {
    if incs != [] {
      AllAtOnceInRange(target, stored, incs[0]);
      AllAtOnceRunInRange(target, After(stored, CounterStep(AllAtOnce, target, stored, incs[0])), incs[1..]);
    }
  }

  /**
   * A completed `AllAtOnce` counter stays completed and fires no more grants
   * while increments stay at most 1.
   */
  lemma {:induction false} CompletedStaysCompleted(target: Target, incs: seq<Int32>)
    requires forall i :: 0 <= i < |incs| ==> incs[i] <= 1
    ensures Replay(AllAtOnce, target, Completed, incs) == Run(Completed, 0)
  {
    if incs != [] {
      CompletedStaysCompleted(target, incs[1..]);
    }
  }

  /**
   * An `AllAtOnce` counter that starts in progress and is offered at least the
   * missing progress fires at least once (without overflow).
   */
  lemma {:induction false} AllAtOnceFiresOnReaching(target: Target, stored: Int32, incs: seq<Int32>)
    requires 0 <= stored < target
    requires NoOverflow(AllAtOnce, target, stored, incs)
    requires stored + Gain(incs) >= target
    ensures Replay(AllAtOnce, target, stored, incs).fires >= 1
    decreases |incs|
  {
    if incs != [] {
      var u := CounterStep(AllAtOnce, target, stored, incs[0]);
      if !(u.Store? && u.fire) {
        assert After(stored, u) == stored + (if incs[0] > 0 then incs[0] else 0);
        AllAtOnceFiresOnReaching(target, After(stored, u), incs[1..]);
      }
    }
  }

  /**
   * `StepByStep` conserves progress: each fire consumes exactly one target
   * width, and what is left is the counter. So the fires of a run since a
   * counter of 0 are the progress offered divided by the target, rounded down.
   */
  lemma {:induction false} StepByStepConserves(target: Target, stored: Int32, incs: seq<Int32>)
    requires 0 <= stored
    requires NoOverflow(StepByStep, target, stored, incs)
    ensures 0 <= Replay(StepByStep, target, stored, incs).final
    ensures Replay(StepByStep, target, stored, incs).fires * target + Replay(StepByStep, target, stored, incs).final
      == stored + Gain(incs)
    decreases |incs|
  {
    if incs != [] {
      var u := CounterStep(StepByStep, target, stored, incs[0]);
      var f := if u.Store? && u.fire then 1 else 0;
      var gain0 := if incs[0] > 0 then incs[0] else 0;
      StepTable(StepByStep, target, stored, incs[0]);
      assert After(stored, u) + f * target == stored + gain0;
      StepByStepNonNegative(target, stored, incs[0]);
      var rest := Replay(StepByStep, target, After(stored, u), incs[1..]);
      StepByStepConserves(target, After(stored, u), incs[1..]);
      assert Replay(StepByStep, target, stored, incs) == Run(rest.final, rest.fires + f);
      assert (rest.fires + f) * target == rest.fires * target + f * target;
    }
  }

  /** Three unit events at target 3 fire once and leave the counter at 0. */
  lemma StepByStepThreeUnits()
    ensures Replay(StepByStep, 3, 0, [1, 1, 1]) == Run(0, 1)
  {
  }
}
