# RepLen intents and activation demo, modelled in Dafny

RepLen lets a user declare a liquidity intent (add, remove or rebalance
liquidity in a pool). The intent is held back for a delay and then
activated gradually, so that it is hard to front-run. This project models
three small pieces of that system and proves properties of them:

* **The intent record** (`intent.dfy`, module `Intent`). It holds the three
  action types, the four statuses and the `LenIntent` record. `ExecutedAt`
  is an optional time. `Amount` is a real, because the backend never
  computes on it.
* **The intent store and its executor pass** (`store.dfy`, module `Store`).
  The class `IntentStore` holds a map from intent ID to intent, the
  executor-running flag, the last-checked time and the tick interval. Its
  methods are `Add` (upsert), `GetAll`, `GetReadyIntents`, `ExecutorStatus`
  and `ExecuteReadyIntents`. `ExecuteReadyIntents` moves every due PENDING
  intent to EXECUTED and stamps it. `ExecutorStatus` and
  `ExecuteReadyIntents` are proved against pure functions of the map
  (`DueIds`, `ExecutedIds`, `ExecutePass`); `Add`, `GetAll` and
  `GetReadyIntents` are specified on the map and `IsDue` directly. Lemmas then
  prove the following about those functions: the pass is idempotent, leaves
  nothing due and keeps the record's consistency rule, and the status counts
  are bounded.
* **The gradual-activation demo** (`activation.dfy`, `demo.dfy` and
  `address.dfy`, with the shared `MinNat` in `numbers.dfy`):
  * The pure curve: active and buffered amounts, the progress bar, the
    percentages and the four phases.
  * The simulator: the class `DemoSimulator` with the start, tick and reset
    steps, and a pure view of a run (`RunState`, `AfterTicks`). The proved
    properties are that a run with delay + steps ≥ 1 ends at exactly
    delay + steps, and that for a non-negative delay and at least one step
    its last tick shows the final smoothing step.
  * The shortened wallet address.

Time is an integer on one clock. Each store operation reads the clock once,
as a parameter `now`. A `time.Duration` is a count of nanoseconds. Go's zero
`time.Time` in `lastCheckedAt` is written `None`.

`intent_store.go` contains unresolved merge markers, so as written it does
not compile. The model follows the incoming side of the conflict. That side
matches the `Status` field of `LenIntent` and the executor. The HEAD side
reads a field `Executed` that `LenIntent` does not have.

The model follows what the demo code does, in particular:

* The sliders are not validated. Nothing rejects a zero or negative
  amount, delay or step count.
* When steps is 0, the ratio (block - delay) / steps is +Infinity in
  JavaScript. `Math.min` clamps it to 1, so the whole amount becomes
  active once the delay has passed.
* A run stops on the tick that reaches delay + steps. For a non-negative
  delay and at least one step, that tick shows the final Smoothing step
  (steps/steps), not Fully Activated. With a positive delay and no steps it
  ends in the Delay phase; with delay + steps at most 0 the first tick
  ends it, at block 1.
* Reset writes a fixed block-0 display rather than recomputing the curve.
  `Demo.ResetShowsBlockZero` proves the two agree whenever the delay is
  non-negative, delay + steps is positive and the amount is non-zero.
* The progress bar is on a 0–100 scale, clamped at 100 from above only.
  A negative delay + steps gives a negative width; `Activation.ProgressBounds`
  gives the [0, 100] range for a non-negative delay and at least one step.

## Model

| member | source | states |
|---|---|---|
| `Intent.ActionCodesDistinct` | RepLen-backend/internal/intent/intent.go:5-9 | the three action constants ADD, REMOVE and REBALANCE are distinct: two actions have the same code exactly when they are the same action |
| `Intent.StatusCodesDistinct` | RepLen-backend/internal/intent/intent.go:10-15 | the four status constants PENDING, EXECUTED, FAILED and CANCELLED are distinct |
| `Store.WholeSeconds` | RepLen-backend/internal/store/intent_store.go:87 | for the store's 5-second tick interval, `int(d.Seconds())` is the number of whole seconds in the duration, truncated toward zero (bounded by r and r+1 seconds on each side); see Left out for durations of 2^24 seconds or more |
| `Store.IntentStore.constructor` | RepLen-backend/internal/store/intent_store.go:33-39 | a new store has an empty map, the executor not running, a 5-second tick interval (reported as 5 whole seconds) and no last-checked time |
| `Store.IntentStore.Add` | RepLen-backend/internal/store/intent_store.go:48-53 | after Add(i) the map sends i's ID to i and every other ID to what it held before, overwriting an existing entry; the store keeps every intent under its own ID and keeps the record consistency rule if i obeys it; no other field changes |
| `Store.IntentStore.GetAll` | RepLen-backend/internal/store/intent_store.go:55-64 | returns every stored intent exactly once: as many entries as keys, each one the intent stored under its ID, every stored intent present, no ID repeated; the store is unchanged |
| `Store.IntentStore.GetReadyIntents` | RepLen-backend/internal/store/intent_store.go:127-136 | returns exactly the PENDING intents whose execute time is not after `now`, each once (due test on `ExecuteAt`, see Findings); the store is unchanged |
| `Store.IntentStore.GetReadyIntentsAsWritten` | RepLen-backend/internal/store/intent_store.go:127-136 | the ready read as written: it fails with a nil dereference exactly when some PENDING intent has no `ExecutedAt`, and otherwise returns exactly the PENDING intents whose `ExecutedAt` is not after `now`, each once |
| `Store.FreshIntentBreaksReadyAsWritten` | RepLen-backend/internal/store/intent_store.go:129-133 | a store holding one freshly registered due intent (PENDING, no execution time) makes the as-written read dereference nil, although that intent is due |
| `Store.ReadyAsWrittenNeverReturnsAnything` | RepLen-backend/internal/store/intent_store.go:129-133 | in a store that obeys the record consistency rule, the as-written read never selects any intent, and it dereferences nil whenever some intent is due |
| `Store.IntentStore.ExecutorStatus` | RepLen-backend/internal/store/intent_store.go:69-92 | reports the running flag, the tick interval in whole seconds and the last-checked time as stored; `pending_intents` is the number of PENDING intents due at `now`, `executed_intents` the number of EXECUTED intents, and their sum is at most the number of stored intents; the store is unchanged |
| `Store.StatusCountsBounded` | RepLen-backend/internal/store/intent_store.go:73-83 | the due-PENDING count plus the EXECUTED count never exceeds the number of stored intents |
| `Store.IntentStore.ExecuteReadyIntents` | RepLen-backend/internal/store/executor.go:19-36 | the map becomes the executor pass of the old map at `now`; `lastCheckedAt` becomes `now` exactly when at least one intent was due and keeps its old value otherwise; the running flag and tick interval are untouched; the store still keys intents by ID |
| `Store.ExecutePass` | RepLen-backend/internal/store/executor.go:23-35 | the pass keeps the key set; it keeps every intent's ID, action, address, pool, amount, signer, creation time and execute time; it leaves every intent that is not due unchanged (not PENDING, or PENDING with a later execute time); it turns every due intent EXECUTED with execution time `now` |
| `Store.ExecutePassIdempotent` | RepLen-backend/internal/store/executor.go:24-27 | a second pass at the same `now` changes nothing |
| `Store.NothingDueAfterPass` | RepLen-backend/internal/store/executor.go:24-33 | after a pass no intent is due at the same `now`, so the pending count ExecutorStatus would report is 0 |
| `Store.ExecutePassKeepsConsistency` | RepLen-backend/internal/store/executor.go:30-33 | a pass keeps intents keyed by their ID and keeps "execution time present exactly when EXECUTED" |
| `Store.ExecutedCountAfterPass` | RepLen-backend/internal/store/executor.go:27-33 | the EXECUTED intents after a pass are those before it plus the ones that were due, so the executed count grows by exactly the due count |
| `Activation.SmoothingFraction` | RepLen-frontend/script.js:384-386 | once the delay has passed with steps > 0, the active share lies in (0, 1] and equals 1 exactly from block delay + steps on; with steps = 0 it is 1 (the clamped +Infinity) |
| `Activation.ActivationSchedule` | RepLen-frontend/script.js:383-388 | for steps > 0 and any amount: nothing is active up to the delay, amount·(block − delay)/steps is active during smoothing, the whole amount is active from delay + steps on, and active and buffered sum to the amount |
| `Activation.AmountsInRange` | RepLen-frontend/script.js:383-388 | for steps ≥ 0 (0 included, where the clamp activates everything at once) and a non-negative amount, the active and buffered amounts each lie in [0, amount] |
| `Activation.ActiveMonotone` | RepLen-frontend/script.js:383-388 | for steps ≥ 0 and a non-negative amount, the active amount never decreases and the buffered amount never increases as the block count grows |
| `Activation.ProgressBounds` | RepLen-frontend/script.js:378-379 | for a non-negative delay and steps > 0 the progress bar is defined, lies in [0, 100], and is 100 exactly when the block count has reached delay + steps |
| `Activation.ProgressMonotone` | RepLen-frontend/script.js:378-379 | when delay + steps > 0, the progress bar is defined and never moves back as the block count grows |
| `Activation.PhaseCharacterization` | RepLen-frontend/script.js:400-412 | for a non-negative delay and steps ≥ 0, exactly one phase applies: Registered exactly at block 0, Delay exactly for 0 < block ≤ delay, Smoothing exactly for delay < block ≤ delay + steps, Fully Activated exactly beyond that |
| `Activation.PhaseMonotone` | RepLen-frontend/script.js:400-412 | for a non-negative delay and steps ≥ 0, phases only move forward (Registered, Delay, Smoothing, Fully Activated) as the block count grows |
| `Activation.PercentagesSplit` | RepLen-frontend/script.js:391-397 | for a non-zero amount the activated and pending percentages are defined and sum to 100; for a positive amount and steps ≥ 0 each lies in [0, 100] |
| `Activation.DefaultDemoDelay` | RepLen-frontend/script.js:261-269 | with the default configuration (10000, delay 5, 10 steps): blocks 1 to 5 show nothing active, in the Delay phase |
| `Activation.DefaultDemoScenario` | RepLen-frontend/script.js:261-269 | with the default configuration (10000, delay 5, 10 steps): block 8 shows 3000 active and 7000 buffered at smoothing step 3/10, and block 15 shows all 10000 active at step 10/10 with a full bar |
| `Demo.DemoSimulator.constructor` | RepLen-frontend/script.js:261-269 | the demo starts with action ADD_LIQUIDITY, amount 10000, delay 5, 10 steps, not simulating, at block 0 |
| `Demo.DemoSimulator.SetActionType` | RepLen-frontend/script.js:274-283 | choosing an action changes nothing while a run is in progress, and otherwise sets the action |
| `Demo.DemoSimulator.UpdateAmount` | RepLen-frontend/script.js:288-295 | the amount slider sets the amount to the parsed value |
| `Demo.DemoSimulator.UpdateDelay` | RepLen-frontend/script.js:300-304 | the delay slider sets the delay to the parsed value |
| `Demo.DemoSimulator.UpdateSteps` | RepLen-frontend/script.js:309-313 | the smoothing slider sets the step count to the parsed value |
| `Demo.DemoSimulator.RunSimulation` | RepLen-frontend/script.js:327-331 | while a run is in progress nothing changes; otherwise a run starts at block 0 |
| `Demo.DemoSimulator.Tick` | RepLen-frontend/script.js:349-356 | each tick raises the block count by exactly 1, shows the snapshot for the new block, and leaves the run going exactly while the block count is below delay + steps |
| `Demo.DemoSimulator.ResetSimulation` | RepLen-frontend/script.js:422-448 | whether or not a run was in progress, reset leaves the demo not simulating at block 0, and shows block 0, an empty bar, nothing active, the whole amount buffered and Intent Registered |
| `Demo.ResetShowsBlockZero` | RepLen-frontend/script.js:439-447 | the fixed reset display equals the curve's snapshot at block 0 for a non-negative delay, a positive delay + steps and a non-zero amount |
| `Demo.RunFrom` | RepLen-frontend/script.js:349-356 | from any block before delay + steps, n ticks reach block min(block + n, delay + steps), and the run is still going exactly while that is below delay + steps; no tick fires after the run stops |
| `Demo.RunEndsAtTotal` | RepLen-frontend/script.js:327-356 | a run started from rest with delay + steps ≥ 1 ends with its block count at exactly delay + steps, and further ticks change nothing |
| `Demo.DegenerateRunEndsAtOne` | RepLen-frontend/script.js:350-356 | with delay + steps ≤ 0 the first tick already ends the run, at block 1 |
| `Demo.LastTickShowsFinalSmoothingStep` | RepLen-frontend/script.js:349-412 | for a non-negative delay, steps ≥ 1 and any amount, the run's last tick shows Smoothing (steps/steps), the whole amount active, nothing buffered and a full bar; no block a run reaches shows Fully Activated |
| `Address.ShortAddress` | RepLen-frontend/script.js:55 | the short address is the first six characters, "..." and the last four (the whole string where it is shorter); a 42-character address shortens to 13 characters |

## Findings

| source | as written | input that shows it | evidently intended | confidence | as-written member | corrected member |
|---|---|---|---|---|---|---|
| RepLen-backend/internal/store/intent_store.go:130-131 | the due test of `GetReadyIntents` calls `Before` and `Equal` on `i.ExecutedAt`, a pointer that is nil for every PENDING intent | a store holding one freshly registered PENDING intent (`ExecutedAt` nil): the read panics with a nil pointer dereference | test the due time on `ExecuteAt`, as `ExecutorStatus` (line 77) and the executor (executor.go:27) do | high; not executed | `Store.IntentStore.GetReadyIntentsAsWritten`, `Store.FreshIntentBreaksReadyAsWritten` | `Store.IntentStore.GetReadyIntents` |

## Left out

- Store.IntentStore.GetReadyIntents: tests the due time on `ExecuteAt` rather than on `ExecutedAt` as line 131 does. The as-written behaviour is `Store.IntentStore.GetReadyIntentsAsWritten` (see Findings).
- Store.IntentStore.GetAll, Store.IntentStore.GetReadyIntents: Go visits a map in random order, so both results are specified only up to order.
- Store.IntentStore.ExecuteReadyIntents: the source reads the clock up to three times per executed intent. The model uses one `now` for the due test, the `ExecutedAt` stamp and `lastCheckedAt`.
- Store.IntentStore.ExecutorStatus: the due test at intent_store.go:77 reads the clock twice per intent (`Before(time.Now()) || Equal(time.Now())`). An intent whose execute time falls between the two readings is not counted there, while the model's single `now` counts it.
- Store.WholeSeconds: Go computes `int(d.Seconds())` through a float64 sum of whole and fractional seconds. For durations of 2^24 seconds (about 194 days) or more, with a sub-second part close to 1 s, that sum rounds up to the next whole second, while the model truncates. The store's interval is always 5 seconds (intent_store.go:37), where the two agree.
- Status and action values: they are Go strings, so a record could carry a string outside the declared constants, such as the zero value "". Such a status behaves like FAILED or CANCELLED in every store operation (neither PENDING nor EXECUTED). The model has only the declared constants.
- `StartExecutor`, the goroutine with its ticker: this is concurrency plus wall-clock time. One call of `ExecuteReadyIntents` stands for one tick.
- The mutex and `log.Printf`: each store operation is one atomic step, and the logging has no effect on state.
- `SetChainExecutor`, the chain executor and the HEAD side of the merge conflict: the chain-execution interface is not part of this model, and the HEAD side reads a field that `LenIntent` does not have.
- Demo.DemoSimulator.Tick: requires `isSimulating`, because the interval callback only fires while the interval is armed. `setInterval`, `clearInterval` and the 300 ms period are not modelled.
- Demo.DemoSimulator.UpdateAmount, Demo.DemoSimulator.UpdateDelay, Demo.DemoSimulator.UpdateSteps: they take the already-parsed integer. `parseInt` of non-numeric text (NaN) is not modelled.
- Floating point: the curve uses exact rationals. JavaScript's rounding, `Math.floor`, `toFixed(1)` and `toLocaleString` are display formatting. The only NaN cases modelled are the progress bar at block 0 with delay + steps = 0, and the percentages with amount 0; both are `None`.
- Address.ShortAddress: JavaScript's `slice` counts UTF-16 code units, while a Dafny string counts Unicode scalar values. The two differ only for characters outside the Basic Multilingual Plane, which a hex address never holds.
- DOM and UI: element text, colours, enabling and disabling controls, notifications, tabs, scrolling, `updateLeakageInfo` text, `animateValue` and the fake `submitIntent` timer. These are display side effects.
- Wallet flow (`connectWallet`, MetaMask calls and listeners, the WalletConnect and Coinbase stubs): these are calls into a browser extension. Only the address shortening they display is modelled.
