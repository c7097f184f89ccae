# Banker's algorithm safety check

A Dafny model of the deadlock-avoidance core of `bankers.c`. The inputs are a
snapshot of `numProcesses` processes and `numResources` resource types: the
allocation and maximum matrices, stored flat in row-major order, and the
available vector. The model covers three steps:

- **Need derivation** (`getNeedsMatrix`). Every cell is `need = max - allocation`.
  The run aborts at the first cell where this is negative.
- **Work initialisation** (`initWorkMatrix`, `initProcessMatrix`). The work
  vector starts as a copy of the available vector. The safe flags and the order
  buffer start zeroed.
- **Safety simulation** (`getOrderMatrix`). Passes over the processes repeat in
  ascending index order. A process that is not yet safe and whose need row is
  covered by `work` is marked safe. Its index goes into the next order slot, and
  its allocation row is added to `work` at once, so later processes in the same
  pass can use it. The loop stops as safe when every process has completed. It
  stops as unsafe after a pass that completed nothing. Instead of printing, it
  returns the order prefix, the completed count and the verdict.

Layout of the project:

- `layout.dfy` (`Layout`): the flat matrix layout, rows, and the "need covered
  by work" test.
- `safety.dfy` (`Safety`): the pure reference definition of the loop.
  `Step` is one process visit, `PassFrom`/`Pass` is one pass, and `Run` is the
  `while(1)` loop, including the `lastCompleted = -1` start. Its termination
  measure is `(n - completed, completed == lastCompleted ? 0 : 1)`.
- `ledger.dfy` (`Ledger`): resource accounting. It defines what a sequence of
  completed processes hands back, the resulting work vector, what unfinished
  processes still hold, and the classical safe sequence.
- `safety_proofs.dfy` (`SafetyProofs`): the guarantees. These are conservation,
  soundness of every completion, the meaning of the verdict, the ascending
  order within a pass, and maximality on the unsafe outcome.
- `bankers.dfy` (`Bankers`): the routines as the program runs them, on flat
  integer buffers. Flags are 0/1 and the order buffer has length `numProcesses`.
  Each routine is proved to agree with the reference definition.
- `scenarios.dfy` (`Scenarios`): concrete runs. One is the 5x3 textbook instance
  with order P1, P3, P4, P0, P2. Another is the same instance with nothing
  available, which is unsafe with an empty order. The last is a single process
  whose need is zero, and a 2x2 snapshot that need derivation rejects.

## Model

| member | source | states |
|---|---|---|
| Bankers.GetNeeds | bankers.c:164-180 | Derivation succeeds exactly when no cell's allocation exceeds its maximum. On success every cell is max minus allocation and is non-negative. On failure it names the first offending cell, and every earlier cell was within its maximum. |
| Bankers.InitProcessMatrix | bankers.c:182-186 | A per-process buffer of `numProcesses` zero slots. No process starts flagged safe and no order slot is filled. |
| Bankers.InitWork | bankers.c:188-197 | The work vector has `numResources` cells, and each one equals the corresponding cell of the available vector. |
| Bankers.MeetsNeeds | bankers.c:222-228 | The inner resource loop reports "meets needs" exactly when `need[i*R+j] <= work[j]` for every resource j. |
| Bankers.ReleaseAllocation | bankers.c:233-236 | The new work vector is the old one plus exactly process i's allocation row. |
| Bankers.VisitProcess | bankers.c:221-237 | The buffers after a visit mirror the reference `Step`. The count rises by one exactly when the process was not yet safe and its need was covered at that moment. When it completes, its id is in order slot `completed` and its flag is set. |
| Bankers.ScanPass | bankers.c:220-239 | One `for` pass over all processes leaves the buffers mirroring the reference pass, and the completed count never drops. |
| Bankers.GetOrder | bankers.c:199-243 | The order and verdict are exactly those of the reference loop. The order is a safe sequence of distinct processes, of length `completed <= numProcesses`. The verdict is safe exactly when every process completed, and then every process appears. On unsafe, no unfinished process's need is covered by the final work. |
| Bankers.CheckSnapshot | bankers.c:43-48 | This is the pipeline run by `main`. It is rejected exactly when some allocation exceeds its maximum. Otherwise the report is the reference outcome on the derived needs: the reference order and verdict, and a completed count equal to the order's length and at most `numProcesses`. With non-negative allocations, the verdict is safe exactly when a safe sequence naming every process exists. |
| Safety.Init | bankers.c:44-46 | The starting state keeps the loop's bookkeeping: the order is empty and no flag is set. |
| Safety.Step | bankers.c:229-236 | A visit keeps the bookkeeping. The order holds distinct process ids, exactly those whose flag is set. Its length equals the number of set flags. |
| Safety.PassFrom | bankers.c:220-239 | A pass keeps the bookkeeping, never shortens the order, and only appends to it. |
| Safety.Run | bankers.c:207-240 | The loop terminates, keeps the bookkeeping, and never shortens the order. |
| Safety.CountSet | bankers.c:230-232 | Flagging a process that was not yet safe raises the number of set flags by exactly one. This matches the one increment of `processesCompleted`. |
| Safety.CountFull | bankers.c:208 | When the completed count equals the number of processes, every process is flagged safe. |
| Ledger.HeldFlip | bankers.c:230-236 | Flagging process i removes exactly its allocation from what the unfinished processes hold. |
| Ledger.ReleasedSubset | bankers.c:233-236 | With non-negative allocations, a set of processes hands back no more than any set that contains it. |
| Ledger.WorkAfterPrefix | bankers.c:235 | With non-negative allocations, handing back more of a sequence never shrinks any work cell, and work never drops below the available vector. |
| SafetyProofs.InitTracks | bankers.c:46 | The starting state conserves resources, and its empty order is a safe sequence. |
| SafetyProofs.StepTracks | bankers.c:221-236 | A visit keeps three facts. Work equals available plus the rows of the completed processes. The order stays a safe sequence. `work[j] + sum over unfinished i of alloc[i][j] = available[j] + sum over all i of alloc[i][j]` still holds. |
| SafetyProofs.RunTracks | bankers.c:207-240 | The same three facts hold when the loop stops. |
| SafetyProofs.PassFromNoProgress | bankers.c:213-220 | A pass that completes nothing leaves the state unchanged. Every unfinished process it visited has some resource with `need > work`. |
| SafetyProofs.RunVerdict | bankers.c:207-219 | The loop stops as safe exactly when every process has completed. It stops as unsafe only when no unfinished process's need is covered by the final work. |
| SafetyProofs.PassFromAscending | bankers.c:220-237 | Processes completed within one pass enter the order in strictly ascending index order, none below the index the pass resumed from. |
| SafetyProofs.SimulateSound | bankers.c:199-243 | The reported order is a safe sequence. Each process's need was covered by available plus what the processes before it handed back, including those completed earlier in the same pass. Final work is available plus the completed rows, and resources are conserved. |
| SafetyProofs.SimulateVerdict | bankers.c:207-219 | The order holds distinct ids, exactly the flagged ones, and its length is the number of set flags. The verdict is safe exactly when all processes completed, and then the order is a permutation of `0..n-1`. On unsafe, fewer than n completed and every unfinished process lacks some resource. |
| SafetyProofs.SimulateMaximal | bankers.c:213-218 | With non-negative allocations, every process of any safe sequence is one the loop completed. |
| SafetyProofs.UnsafeHasNoSafeSequence | bankers.c:213-218 | With non-negative allocations, an unsafe verdict means no safe sequence names every process. |
| SafetyProofs.SafeIffSafeSequenceExists | bankers.c:207-218 | With non-negative allocations, the verdict is safe exactly when some safe sequence names every process. |
| SafetyProofs.WorkNeverDecreases | bankers.c:233-236 | With non-negative allocations, the work vector never decreases along the completion order and never falls below the available vector. |
| Scenarios.TextbookIsSafe | bankers.c:199-243 | The 5x3 textbook instance with available [3,3,2] is safe with order P1, P3, P4, P0, P2. |
| Scenarios.TextbookStarvedIsUnsafe | bankers.c:213-218 | The same instance with available [0,0,0] is unsafe with an empty order. |
| Scenarios.MalformedSnapshotRejected | bankers.c:172-175 | A 2x2 snapshot where one allocation exceeds its maximum is rejected at exactly that cell, before the safety loop runs. |
| Scenarios.SingleProcessIsSafe | bankers.c:164-243 | One process with allocation 2, max 2 and available 0 has need 0. It completes at once, with order [0]. |

## Left out

- `main`'s argument check and exit codes (bankers.c:33-54): process plumbing. `CheckSnapshot` models only the data flow from need derivation to the safety loop.
- Input reading: `getSystemData`, `getBankersMetrics` and `getBankersMatrix` (bankers.c:56-162). These are file I/O on C library calls (`fopen`, `fgets`, `strtok`, `atoi`) with 150-byte line buffers. Short rows make them call `atoi(NULL)`, which is undefined behaviour. The matrices and counts are taken as given inputs instead.
- Process and resource counts are `nat`. `atoi` can yield negative counts, which the program does not reject.
- `printResults` (bankers.c:245-253): output formatting. It is also not a faithful printer of the order. It tests `safeMatrix[i]`, using the order slot index as if it were a process id. In an unsafe run it can therefore print slots beyond the completed prefix, or skip slots inside it. The model returns the true prefix `orderMatrix[0..processesCompleted)` instead.
- The `printf` messages of `getOrderMatrix` (bankers.c:209-216) are replaced by the returned `Verdict`.
- `freeMatrices` and `freeMatrix` (bankers.c:255-270): memory management. `freeMatrix` ignores its `isError` argument, and the need-derivation error path frees only the allocation matrix before exiting.
- C `int` overflow in `max - alloc` and in `work += alloc` is not modelled. All arithmetic is on unbounded integers.
- Negative allocations are accepted, as in the program. The results that need "work never decreases" take `NonNegative(alloc)` as an explicit precondition. These are `SimulateMaximal`, `UnsafeHasNoSafeSequence`, `SafeIffSafeSequenceExists` and `WorkNeverDecreases`, plus the last clause of `CheckSnapshot`.
- `GetOrder` does not take the safe and order buffers as parameters. It allocates them itself with `InitProcessMatrix`, as `main` does just before the call. `InitWork` stays a separate routine, and `CheckSnapshot` calls it as `main` does.
- Determinism and idempotence of a rerun hold because every definition is a pure function of immutable inputs. No separate lemma states them.
