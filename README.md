# node-n-parallel in Dafny

A model of `mapNParallel`, a bounded parallel `map`. The call first throws a
`RangeError`, synchronously, for a thread count below one. Otherwise it
creates one unit of work per element. Each unit waits at a counting gate (`Mutex`), runs `mapFunc(data[i], i, data)`,
frees the gate on success, and `Promise.all` puts the results together by
index.

The model has three modules:

- `Wrappers` (wrappers.dfy): `Option` and `Result`.
- `Gate` (gate.dfy): the class `Mutex` with the fields `max`, `current` and
  `q`. `Block` and `Free` update them in place. A waiter's resolve callback is
  represented by the waiter's id.
- `NParallel` (nparallel.dfy): `MapNParallel`, with the event loop replaced by
  an explicit schedule.
  - `BlockAll` calls `Block(i)` for i = 0 .. n-1, in index order, before
    anything settles. This is what `data.map` does synchronously.
  - `Drain` then repeatedly picks any unit that holds a slot, chosen
    nondeterministically, so every completion order is covered.
  - The picked unit settles with `mapFunc`'s outcome (`Outcomes`). On success
    it stores its value at its own index and calls `Free`, which may start the
    head of the queue. On failure it never frees. The pure function `Settle`
    gives the bookkeeping of one such step, and the predicate `GateStep` the
    gate's part of it.
  - `mapFunc` is a pure total function returning `Result<O, E>`: a success
    value or the error it throws.
  - `MapNParallel` also returns some instrumentation:
    - `calls`: the order in which `mapFunc` was invoked.
    - `completed`: the order in which units settled.
    - `peak`: the most units running at once. Failed units, whose slots are
      never returned, are not counted.
    - `finalCount`: the gate's counter at the end.

The gate's counter is modelled exactly as written. `Free` lowers `current` even
when it hands the slot straight to a waiter, and the woken waiter never raises
it again. So after a hand-off `current` is lower than the holders plus the slots kept
by failed units, and it ends at `min(n, threads) - n` after a successful run.

The class comment (src/index.ts:43-46) describes a manager of n resources, but
`current` does not stay between 0 and `max`; the model follows the code. The
bound on holders still holds in `mapNParallel`, because every `Block` happens
before any `Free`. The predicate `NParallel.Occupancy` holds the accounting
that proves it: the counter equals the holders, plus the slots leaked by failed
units, minus the hand-offs.

`Gate.LateBlockOverAdmits` shows that the bound depends on that order. On the
gate alone, a `Block` made after a hand-off is admitted while the only slot is
still held.

## Model

| member | source | states |
|---|---|---|
| `Gate.Mutex.constructor` | src/index.ts:52-56 | a new gate has the given limit, a zero counter and an empty queue; the limit is not validated here |
| `Gate.Mutex.Block` | src/index.ts:58-65 | the caller is admitted exactly when `current < max`; then the counter rises by one and the queue is unchanged; otherwise the counter is unchanged and the caller is appended at the tail, keeping the existing entries in order |
| `Gate.Mutex.Free` | src/index.ts:67-71 | the counter always drops by exactly one; a non-empty queue loses exactly its head, which is the waiter woken, and keeps the rest in order; an empty queue stays empty and nobody is woken |
| `Gate.LateBlockOverAdmits` | src/index.ts:58-71 | with limit 1: block 0 (admitted), block 1 (queued), free (wakes 1), then a late block 2 is admitted although 1 still holds the slot, so the bound needs all blocks before any free |
| `NParallel.MapNParallel` | src/index.ts:18-36 | `threads < 1` gives a range error with no `mapFunc` call; otherwise `mapFunc` is invoked on 0, 1, 2, ... in increasing index order; every invoked unit settles exactly once; the most units running at once (`peak`) is `min(n, threads)`; the result is a success exactly when every unit succeeds, and then equals `Values` of the outcomes by index, whatever the completion order, and the final counter is `min(n, threads) - n`; otherwise it is the error of the first unit to fail in completion order |
| `NParallel.BlockAll` | src/index.ts:28-29 | after units 0..n-1 block in order on a fresh gate, the first `min(n, max)` units hold a slot and have started, the counter is `min(n, max)`, and the queue is exactly the remaining indices in increasing order |
| `NParallel.Drain` | src/index.ts:29-35 | settling holders one at a time in any order keeps the invariant `Inv` and ends with no holders |
| `NParallel.Outcomes` | src/index.ts:28-30 | one outcome per element, and unit i's outcome is `mapFunc` applied to `data[i]`, its index i and the whole array |
| `NParallel.Settle` | src/index.ts:30-35 | one unit u finishing: u joins the completion order; a success stores its value at index u and leaves every other index alone; a failure becomes the rejection only if none was recorded; u stops holding, and a unit woken by `Free` starts, is appended to the calls and holds a slot |
| `NParallel.GateStep` | src/index.ts:30-31 | the gate's part of a settlement: a waiter is woken exactly when a success finds the queue non-empty, and then the queue loses one entry; the counter drops by one on a success and is untouched on a failure, which never calls `free` |
| `NParallel.Values` | src/index.ts:35 | when every outcome is a success, the assembled array has the same length and holds at index i the value of unit i |
| `NParallel.FirstFailure` | src/index.ts:35 | finds the first failed unit in a completion order; it is absent exactly when every unit in the order succeeded; otherwise the unit it names failed and every earlier one succeeded |
| `NParallel.FirstFailureAppend` | src/index.ts:35 | a unit settling later never changes an earlier rejection; a failure becomes the rejection only if there was none |
| `NParallel.Leaked` | src/index.ts:30-31 | the number of slots never returned, one per failed unit; it is at most the number of settled units and is zero exactly when no settled unit failed |
| `NParallel.LeakedAppend` | src/index.ts:30-31 | a settling unit adds one leaked slot exactly when it failed |
| `NParallel.AtMostThreadsHold` | src/index.ts:59-71 | under the run invariant at most `threads` units (and at most n) hold a slot; counting also the failed units, which were admitted and never free their slot, the admitted-but-not-freed units number at most `min(n, threads)`; and the counter never exceeds holders plus leaked slots |
| `NParallel.Blocked` | src/index.ts:28-29 | the state left by the blocking phase satisfies the run invariant (tracking, occupancy, recorded results) |
| `NParallel.TrackingKept` | src/index.ts:28-33 | settling a holder, and starting the next index on a hand-off, keeps calls = 0..next-1 in order, every started unit either holding or settled exactly once |
| `NParallel.RecordedKept` | src/index.ts:30-35 | settling a holder keeps the results by index equal to the successful outcomes and the rejection equal to the first failure in completion order |
| `NParallel.RejectedKept` | src/index.ts:30-35 | `Promise.all` rejects with the first failure: a later settlement never replaces an existing rejection, and a failure becomes the rejection exactly when there was none, so the rejection stays the error of the first failed unit in completion order |
| `NParallel.StoredKept` | src/index.ts:30-35 | a success stored at its own index keeps every stored result equal to its unit's value and every settled success stored |
| `NParallel.SettleSizes` | src/index.ts:28-33 | a settlement appends the unit to the completion order and keeps the peak; a hand-off adds one started unit and keeps the holders, otherwise the holders drop by one |
| `NParallel.HandoffKept` | src/index.ts:67-71 | when `Free` finds a waiter, the waiter is exactly the next index to start (and it exists); after the hand-off the counter is one lower, the queue loses its head, the holders stay the same and the next index advances, and the accounting `Counts` (counter = holders + leaked − hand-offs, queue = the indices not yet started) still holds |
| `NParallel.ReleaseKept` | src/index.ts:67-71 | when `Free` finds an empty queue, the counter and the holders both drop by one and `Counts` still holds |
| `NParallel.LeakKept` | src/index.ts:30-31 | a failed unit never calls `Free`: one holder fewer, one leaked slot more, the counter unchanged, and `Counts` still holds |
| `NParallel.OccupancyKept` | src/index.ts:59-71 | whatever `Free` does on a success (or, on a failure, not calling it), a woken unit is exactly the next index, the occupancy accounting holds for the settled state, and the number of units still to start or settle decreases |
| `NParallel.Finished` | src/index.ts:28-35 | once no unit holds a slot, the run succeeded exactly when every unit succeeded; then every index was started and stored its value, and the counter is `min(n, threads) - n` |

## Left out

- The `Promise`/`async` machinery, microtask ordering and the event loop. They are replaced by the explicit schedule above. Units that stay queued after every holder has failed are, in the source, promises that never settle; the model reports the run as a failure with those units never started.
- Wall-clock timing: `sleep`, `setTimeout`, `Date.now()` and random delays. The serialisation test with `threads = 1` is covered only through the bound on holders.
- `MapNParallel`: `mapFunc` is a pure total function. Its side effects and its suspension inside a unit are not modelled. `calls` records when a unit is admitted and would invoke `mapFunc`; since `mapFunc` is pure, the model evaluates it when the unit settles.
- `MapNParallel`: `threads` is an integer. A fractional or `NaN` thread count, which JavaScript would accept, is not modelled.
- The `this` binding of `mapFunc.call({}, ...)`, which has no observable effect here.
- The `Array.prototype.nmap` extension (src/index.ts:79-99). It only delegates to `mapNParallel` and works by changing a global prototype.
- JavaScript's exception classes, and the difference between a synchronous throw and a promise rejection. The `RangeError` is thrown before any promise exists, while a unit's failure rejects the returned promise; the model reports both through one `Result`, with the `MapError` datatype: `RangeError`, or `TransformFailure` carrying the unit's error.
