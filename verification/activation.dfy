/** The gradual-activation curve the demo draws on every tick
    (RepLen-frontend/script.js, updateSimulationUI). The slider values are
    integers (parseInt), so the curve is exact rational arithmetic here;
    JavaScript's floating-point rounding is not modelled. Where JavaScript
    divides by zero the model follows what the browser computes: a positive
    number over 0 is +Infinity, which Math.min clamps, and 0 / 0 is NaN,
    written None. */
module Activation {

  import opened Wrappers

  /** Math.min on two finite numbers. */
  function Min(a: real, b: real): real
  {
    if a <= b then a else b
  }

  /** The phase line under the progress bar, with the counters it shows. */
  datatype Phase =
    | Registered
    | DelayPeriod(block: int, delay: int)
    | Smoothing(step: int, steps: int)
    | FullyActivated

  /** A phase's place in the forward order of a run. */
  function Rank(p: Phase): nat
  {
    match p
    case Registered => 0
    case DelayPeriod(_, _) => 1
    case Smoothing(_, _) => 2
    case FullyActivated => 3
  }

  /** The if-chain of script.js:403-412; Registered is its default. */
  function PhaseAt(block: nat, delay: int, steps: int): Phase
  {
    if block > 0 && block <= delay then DelayPeriod(block, delay)
    else if block > delay && block <= delay + steps then Smoothing(block - delay, steps)
    else if block > delay + steps then FullyActivated
    else Registered
  }

  /** The share of the amount that is active once the delay has passed:
      linear in the blocks since the delay, clamped at 1. */
  function SmoothingFraction(block: nat, delay: int, steps: int): (f: real)
    requires block > delay
    ensures steps > 0 ==> 0.0 < f <= 1.0 && (f == 1.0 <==> block >= delay + steps)
    ensures steps == 0 ==> f == 1.0
  {
    // with steps == 0 the quotient is +Infinity, which Math.min clamps to 1
    if steps == 0 then 1.0 else Min((block - delay) as real / steps as real, 1.0)
  }

  function ActiveAmount(block: nat, delay: int, steps: int, amount: int): real
  {
    if block > delay then amount as real * SmoothingFraction(block, delay, steps) else 0.0
  }

  function BufferedAmount(block: nat, delay: int, steps: int, amount: int): real
  {
    amount as real - ActiveAmount(block, delay, steps, amount)
  }

  /** The width of the progress bar, in percent. */
  function Progress(block: nat, delay: int, steps: int): Option<real>
  {
    var total := delay + steps;
    if total == 0 then
      // block / 0 is +Infinity (clamped to 100) for block > 0, and NaN for block == 0
      if block > 0 then Some(100.0) else None
    else
      Some(Min(block as real / total as real * 100.0, 100.0))
  }

  /** `part / amount * 100`. When the amount is 0 both parts are 0 too, and
      0 / 0 is NaN. */
  function SharePercent(part: real, amount: int): Option<real>
  {
    if amount == 0 then None else Some(part / amount as real * 100.0)
  }

  /** What one call of updateSimulationUI shows. */
  datatype Snapshot = Snapshot(
    block: nat,
    progress: Option<real>,
    active: real,
    buffered: real,
    activePercent: Option<real>,
    bufferedPercent: Option<real>,
    phase: Phase)

  function SnapshotAt(block: nat, delay: int, steps: int, amount: int): Snapshot
  {
    var active := ActiveAmount(block, delay, steps, amount);
    var buffered := BufferedAmount(block, delay, steps, amount);
    Snapshot(block, Progress(block, delay, steps), active, buffered,
             SharePercent(active, amount), SharePercent(buffered, amount),
             PhaseAt(block, delay, steps))
  }

  lemma QuotientMonotone(x: real, y: real, d: real)
    requires x <= y && 0.0 < d
    ensures x / d <= y / d
  {
    assert y / d - x / d == (y - x) / d;
  }

  /** The schedule: nothing is active during the delay, the active share
      grows linearly over the smoothing steps, and the whole amount is
      active from the last step on; active and buffered always split the
      amount between them. */
  lemma ActivationSchedule(block: nat, delay: int, steps: int, amount: int)
    requires steps > 0
    ensures block <= delay ==> ActiveAmount(block, delay, steps, amount) == 0.0
    ensures delay < block < delay + steps ==>
              ActiveAmount(block, delay, steps, amount) == amount as real * (block - delay) as real / steps as real
    ensures block >= delay + steps ==> ActiveAmount(block, delay, steps, amount) == amount as real
    ensures ActiveAmount(block, delay, steps, amount) + BufferedAmount(block, delay, steps, amount) == amount as real
  {
  }

  /** For a non-negative amount and step count (steps = 0 included, where
      the clamp makes everything active at once), active and buffered each
      lie between 0 and the amount. */
  lemma AmountsInRange(block: nat, delay: int, steps: int, amount: int)
    requires steps >= 0 && amount >= 0
    ensures 0.0 <= ActiveAmount(block, delay, steps, amount) <= amount as real
    ensures 0.0 <= BufferedAmount(block, delay, steps, amount) <= amount as real
  {
    if block > delay {
      var n, f := amount as real, SmoothingFraction(block, delay, steps);
      assert 0.0 <= n * f;
      assert n * (1.0 - f) >= 0.0;
    }
  }

  /** Over a run the active amount never falls and the buffered amount never rises. */
  lemma ActiveMonotone(b1: nat, b2: nat, delay: int, steps: int, amount: int)
    requires b1 <= b2 && steps >= 0 && amount >= 0
    ensures ActiveAmount(b1, delay, steps, amount) <= ActiveAmount(b2, delay, steps, amount)
    ensures BufferedAmount(b2, delay, steps, amount) <= BufferedAmount(b1, delay, steps, amount)
  {
    var n := amount as real;
    if b1 > delay {
      var f1, f2 := SmoothingFraction(b1, delay, steps), SmoothingFraction(b2, delay, steps);
      if steps > 0 {
        QuotientMonotone((b1 - delay) as real, (b2 - delay) as real, steps as real);
      }
      assert f1 <= f2;
      assert n * (f2 - f1) >= 0.0;
    } else if b2 > delay {
      assert 0.0 <= n * SmoothingFraction(b2, delay, steps);
    }
  }

  /** The progress bar stays within 0..100, reaches 100 exactly at the end
      of the schedule, and never moves back. */
  lemma ProgressBounds(block: nat, delay: int, steps: int)
    requires delay >= 0 && steps > 0
    ensures Progress(block, delay, steps).Some?
    ensures 0.0 <= Progress(block, delay, steps).value <= 100.0
    ensures Progress(block, delay, steps).value == 100.0 <==> block >= delay + steps
  {
    var t := (delay + steps) as real;
    var q := block as real / t;
    assert q * 100.0 >= 100.0 <==> block as real >= t by {
      assert q * t == block as real;
    }
  }

  /** While the schedule has a positive length, the bar never moves back. */
  lemma ProgressMonotone(b1: nat, b2: nat, delay: int, steps: int)
    requires b1 <= b2 && delay + steps > 0
    ensures Progress(b1, delay, steps).Some? && Progress(b2, delay, steps).Some?
    ensures Progress(b1, delay, steps).value <= Progress(b2, delay, steps).value
  {
    var t := (delay + steps) as real;
    QuotientMonotone(b1 as real, b2 as real, t);
  }

  /** Exactly one phase applies, each over its own range of blocks. */
  lemma PhaseCharacterization(block: nat, delay: int, steps: int)
    requires delay >= 0 && steps >= 0
    ensures PhaseAt(block, delay, steps) == Registered <==> block == 0
    ensures PhaseAt(block, delay, steps).DelayPeriod? <==> 0 < block <= delay
    ensures PhaseAt(block, delay, steps).Smoothing? <==> delay < block <= delay + steps
    ensures PhaseAt(block, delay, steps) == FullyActivated <==> block > delay + steps
  {
  }

  /** Phases only move forward as the block count grows. */
  lemma PhaseMonotone(b1: nat, b2: nat, delay: int, steps: int)
    requires b1 <= b2 && delay >= 0 && steps >= 0
    ensures Rank(PhaseAt(b1, delay, steps)) <= Rank(PhaseAt(b2, delay, steps))
  {
  }

  lemma SharesSum(a: real, b: real, n: real)
    requires n != 0.0 && a + b == n
    ensures a / n * 100.0 + b / n * 100.0 == 100.0
  {
    assert a / n + b / n == (a + b) / n;
  }

  lemma ShareInRange(a: real, n: real)
    requires 0.0 <= a <= n && 0.0 < n
    ensures 0.0 <= a / n * 100.0 <= 100.0
  {
    QuotientMonotone(0.0, a, n);
    QuotientMonotone(a, n, n);
  }

  /** The two percentages always add up to 100 and, for a positive amount
      and steps >= 0, each lies in 0..100. */
  lemma PercentagesSplit(block: nat, delay: int, steps: int, amount: int)
    requires amount != 0
    ensures SnapshotAt(block, delay, steps, amount).activePercent.Some?
    ensures SnapshotAt(block, delay, steps, amount).bufferedPercent.Some?
    ensures SnapshotAt(block, delay, steps, amount).activePercent.value +
            SnapshotAt(block, delay, steps, amount).bufferedPercent.value == 100.0
    ensures steps >= 0 && amount > 0 ==>
              0.0 <= SnapshotAt(block, delay, steps, amount).activePercent.value <= 100.0 &&
              0.0 <= SnapshotAt(block, delay, steps, amount).bufferedPercent.value <= 100.0
  {
    var a := ActiveAmount(block, delay, steps, amount);
    var b := BufferedAmount(block, delay, steps, amount);
    SharesSum(a, b, amount as real);
    if steps >= 0 && amount > 0 {
      AmountsInRange(block, delay, steps, amount);
      ShareInRange(a, amount as real);
      ShareInRange(b, amount as real);
    }
  }

  /** The default demo (10000, delay 5, 10 steps): blocks 1 to 5 show
      nothing active, in the Delay phase. */
  lemma DefaultDemoDelay(block: nat)
    requires 1 <= block <= 5
    ensures SnapshotAt(block, 5, 10, 10000).active == 0.0
    ensures SnapshotAt(block, 5, 10, 10000).phase == DelayPeriod(block, 5)
  {
  }

  /** The default demo: block 8 shows 3000 of 10000 active at smoothing
      step 3/10, and block 15 shows it all active at step 10/10. */
  lemma DefaultDemoScenario()
    ensures SnapshotAt(8, 5, 10, 10000).active == 3000.0
    ensures SnapshotAt(8, 5, 10, 10000).buffered == 7000.0
    ensures SnapshotAt(8, 5, 10, 10000).phase == Smoothing(3, 10)
    ensures SnapshotAt(15, 5, 10, 10000).active == 10000.0
    ensures SnapshotAt(15, 5, 10, 10000).phase == Smoothing(10, 10)
    ensures SnapshotAt(15, 5, 10, 10000).progress == Some(100.0)
  {
  }

}
