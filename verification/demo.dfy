/** The interactive demo's simulator (RepLen-frontend/script.js): the
    global `demoConfig` record, the start, tick and reset steps, and the
    snapshot each step shows. The DOM is left out; one call of Tick stands
    for one callback of the 300 ms interval, which is armed exactly while
    `isSimulating` is true (runSimulation arms it together with setting the
    flag; the completing tick and resetSimulation clear both). */
module Demo {

  import opened Wrappers
  import opened Activation
  import opened Numbers

  const DefaultActionType: string := "ADD_LIQUIDITY"
  const DefaultAmount: int := 10000
  const DefaultDelay: int := 5
  const DefaultSteps: int := 10

  /** The run-control part of `demoConfig`. */
  datatype RunState = RunState(isSimulating: bool, currentBlock: nat)

  /** runSimulation: a no-op while a run is in progress, otherwise a fresh run from block 0. */
  function StartStep(s: RunState): RunState
  {
    if s.isSimulating then s else RunState(true, 0)
  }

  /** One interval callback, with `total` the delay plus the smoothing steps:
      advance one block, then stop once the block reaches the total. */
  function TickStep(s: RunState, total: int): RunState
    requires s.isSimulating
  {
    var block := s.currentBlock + 1;
    RunState(!(block >= total), block)
  }

  /** resetSimulation, whatever the state before. */
  const Idle: RunState := RunState(false, 0)

  /** The state after up to `n` interval callbacks; a cleared interval fires no more. */
  function AfterTicks(s: RunState, total: int, n: nat): RunState
    decreases n
  {
    if n == 0 || !s.isSimulating then s else AfterTicks(TickStep(s, total), total, n - 1)
  }

  /** From any block before the end, each tick adds exactly one block and
      the run stops on reaching the total, after which nothing changes. */
  lemma {:induction false} RunFrom(block: nat, total: int, n: nat)
    requires block < total
    ensures AfterTicks(RunState(true, block), total, n) ==
            RunState(block + n < total, MinNat(block + n, total))
    decreases n
  {
    if n > 0 {
      var next := TickStep(RunState(true, block), total);
      if block + 1 < total {
        RunFrom(block + 1, total, n - 1);
      } else {
        assert next == RunState(false, block + 1);
        assert AfterTicks(next, total, n - 1) == next;
      }
    }
  }

  /** A run started from rest with delay + steps >= 1 shows blocks 1, 2, ...
      and ends at exactly delay + steps, with no tick after that. */
  lemma {:induction false} RunEndsAtTotal(s: RunState, total: int, n: nat)
    requires !s.isSimulating && total >= 1
    ensures AfterTicks(StartStep(s), total, n) == RunState(n < total, MinNat(n, total))
    ensures n >= total ==> AfterTicks(StartStep(s), total, n) == RunState(false, total)
  {
    RunFrom(0, total, n);
  }

  /** With delay + steps <= 0 the first tick already ends the run, at block 1. */
  lemma DegenerateRunEndsAtOne(total: int, n: nat)
    requires total <= 0 && n >= 1
    ensures AfterTicks(RunState(true, 0), total, n) == RunState(false, 1)
  {

  }

  /** Because a run halts at delay + steps, its last tick shows the final
      smoothing step, all of the amount active and a full progress bar; the
      Fully Activated phase is never shown by a run. */
  lemma {:induction false} LastTickShowsFinalSmoothingStep(delay: int, steps: int, amount: int)
    requires delay >= 0 && steps >= 1
    ensures SnapshotAt(delay + steps, delay, steps, amount).phase == Smoothing(steps, steps)
    ensures SnapshotAt(delay + steps, delay, steps, amount).active == amount as real
    ensures SnapshotAt(delay + steps, delay, steps, amount).buffered == 0.0
    ensures SnapshotAt(delay + steps, delay, steps, amount).progress == Some(100.0)
    ensures forall n: nat {:trigger AfterTicks(RunState(true, 0), delay + steps, n)} ::
              PhaseAt(AfterTicks(RunState(true, 0), delay + steps, n).currentBlock, delay, steps) != FullyActivated
  {
    assert SmoothingFraction(delay + steps, delay, steps) == 1.0;
    assert ActiveAmount(delay + steps, delay, steps, amount) == amount as real;
    ProgressBounds(delay + steps, delay, steps);
    forall n: nat {:trigger AfterTicks(RunState(true, 0), delay + steps, n)}
      ensures PhaseAt(AfterTicks(RunState(true, 0), delay + steps, n).currentBlock, delay, steps) != FullyActivated
    {
      RunFrom(0, delay + steps, n);
    }
  }

  /** What resetSimulation writes to the page: block 0, an empty bar,
      nothing active, the whole amount buffered, Intent Registered. */
  function ResetSnapshot(amount: int): Snapshot
  {
    Snapshot(0, Some(0.0), 0.0, amount as real, Some(0.0), Some(100.0), Registered)
  }

  /** The fixed reset display agrees with the curve at block 0 for a
      non-negative delay, a non-empty schedule and a non-zero amount. */
  lemma ResetShowsBlockZero(delay: int, steps: int, amount: int)
    requires delay >= 0 && delay + steps > 0 && amount != 0
    ensures ResetSnapshot(amount) == SnapshotAt(0, delay, steps, amount)
  {
    var n := amount as real;
    assert ActiveAmount(0, delay, steps, amount) == 0.0;
    assert BufferedAmount(0, delay, steps, amount) == n;
    assert n != 0.0;
    assert n / n == 1.0;
    assert SharePercent(n, amount) == Some(100.0);
    assert SharePercent(0.0, amount) == Some(0.0);
    assert Progress(0, delay, steps) == Some(0.0);
  }

  /** The global `demoConfig` record; its `interval` handle is represented
      by `isSimulating`. */
  class DemoSimulator {
    var actionType: string
    var amount: int
    var delay: int
    var steps: int
    var isSimulating: bool
    var currentBlock: nat

    function State(): RunState
      reads this
    {
      RunState(isSimulating, currentBlock)
    }

    /** updateSimulationUI: the snapshot for the current configuration. */
    function Shown(): Snapshot
      reads this
    {
      SnapshotAt(currentBlock, delay, steps, amount)
    }

    constructor ()
      ensures actionType == DefaultActionType && amount == DefaultAmount
      ensures delay == DefaultDelay && steps == DefaultSteps
      ensures State() == Idle
    {
      actionType := DefaultActionType;
      amount := DefaultAmount;
      delay := DefaultDelay;
      steps := DefaultSteps;
      isSimulating := false;
      currentBlock := 0;
    }

    /** Choosing an action is ignored while a run is in progress. */
    method SetActionType(t: string)
      modifies this`actionType
      ensures actionType == if old(isSimulating) then old(actionType) else t
    {
      if isSimulating {
        return;
      }
      actionType := t;
    }

    /** The amount slider (its value already parsed to an integer). */
    method UpdateAmount(value: int)
      modifies this`amount
      ensures amount == value
    {
      amount := value;
    }

    /** The delay slider. */
    method UpdateDelay(value: int)
      modifies this`delay
      ensures delay == value
    {
      delay := value;
    }

    /** The smoothing-steps slider. */
    method UpdateSteps(value: int)
      modifies this`steps
      ensures steps == value
    {
      steps := value;
    }

    /** runSimulation: guarded against re-entry. */
    method RunSimulation()
      modifies this`isSimulating, this`currentBlock
      ensures State() == StartStep(old(State()))
      ensures old(isSimulating) ==> isSimulating == old(isSimulating) && currentBlock == old(currentBlock)
      ensures !old(isSimulating) ==> isSimulating && currentBlock == 0
    {
      if isSimulating {
        return;
      }
      isSimulating := true;
      currentBlock := 0;
    }

    /** One interval callback: advance a block, show the snapshot, and
        finish the run once the block reaches delay + steps. */
    method Tick() returns (shown: Snapshot)
      requires isSimulating
      modifies this`isSimulating, this`currentBlock
      ensures currentBlock == old(currentBlock) + 1
      ensures isSimulating <==> currentBlock < delay + steps
      ensures State() == TickStep(old(State()), delay + steps)
      ensures shown == SnapshotAt(currentBlock, delay, steps, amount)
    {
      currentBlock := currentBlock + 1;
      shown := Shown();
      if currentBlock >= delay + steps {
        isSimulating := false;
      }
    }

    /** resetSimulation: stops any run and shows the block-0 display. */
    method ResetSimulation() returns (shown: Snapshot)
      modifies this`isSimulating, this`currentBlock
      ensures State() == Idle
      ensures shown == ResetSnapshot(amount)
    {
      isSimulating := false;
      currentBlock := 0;
      shown := ResetSnapshot(amount);
    }
  }

}
