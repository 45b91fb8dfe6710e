# evm2: verified models of the code that drives and observes execution

evm2 is an Ethereum virtual machine with a fixture runner, a mainnet capture tool, a differential
fuzzer and inspectors around it. This project models the stateful and arithmetic cores of those
surroundings and proves what they promise, over all inputs and all runs:

- **Blob fees** (`Arith.dfy`, `BlobFee.dfy`): the early-exit Taylor sum and the excess blob gas update,
  in the machine integers of the source, against the unbounded arithmetic of EIP-4844 and EIP-7918.
- **The block-chain executor** (`ChainExecutor.dfy`, `PostState.dfy`): a block advances the caller's
  state completely or not at all, a passing case is a hash-linked chain whose excess blob gas follows the
  update from block to block, and the post-state check is exact.
- **The capture ledger** (`CaptureAccount.dfy`, `CaptureReplay.dfy`, `CaptureMeaning.dfy`, `CaptureLedger.dfy`,
  `CaptureOrder.dfy`): replaying a captured range from its minimal base shows every transaction what its
  trace saw; what is recorded is told by the history alone; blocks are processed in order whatever order they
  arrive in.
- **Worker pools** (`WorkerPool.dfy`, `FuzzShards.dfy`): the fixture pool and the sharded fuzzer as state
  machines over all interleavings.
- **Inspectors** (`TransferInspector.dfy`, `OpcodeGas.dfy`): the frame stack of the transfer inspector
  refines the call tree, and the gas inspector conserves gas.
- **The bytecode generator** (`Bytecode.dfy`, `Generator.dfy`, `GeneratorPaths.dfy`): the emitted bytes parse
  back into the emitted instructions, patched jumps are valid, and the tracked stack height is the real one.
- **Glob matching and the case minimizer** (`Glob.dfy`, `Minimizer.dfy`).

Code that updates fields or loops over variables is modelled by classes and methods, each tied to a
function on values; the laws are lemmas about those functions. `dafny verify dfyconfig.toml` checks the
whole project.

## How the models read the source

- A block's execution is an input of `ChainExecutor`: the verdict of every check in the order in which
  they run, what was read, and the changes a commit applies. Hashes and roots are compared only.
- `InMemoryDB` caches what it reads (`crates/evm2/src/evm/db/cache.rs:336-432`), so a discarded block may
  leave the database with more cache entries. "Unchanged" therefore means that no reader can tell the two
  databases apart.
- The chain links blocks by hash, not by number. `BlockHashesAreKept` says exactly when every committed
  block is still found under its number.
- The capture works on one account at a time, except for the shared code table, so its rules are stated per
  account and lifted to the two ledgers. What the traces must tell the truth about is `CaptureReplay.Honest`:
  pre-state values are true; a zero-only entry means an account without state; the post trace reports
  deletions, and every change but one to zero (a balance always); a key marked as written was observed by the
  same transaction, really written, or still zero. `SkippedAuthorizationHidesNonce` shows that the last one
  is needed, with the exact condition. No hypothesis about saturation is needed beyond balances that fit
  256 bits. Runs with deletions are covered.
- The generator's class carries a ghost plan of its program: the instructions, the jumps in order, the patched
  ones with their destinations, the random ones, and those not patched yet. Contracts say how each statement
  changes it.
- Random choices of the generator are arbitrary, so its contracts hold for every sequence of choices. The kinds
  of the jumps, which decide what must be patched, are an input: the contracts say that the n-th jump of the
  program is of the n-th kind.
- Machine integers are modelled where they can matter: 512-, 128- and 64-bit products and casts of the blob
  fee, 16-bit jump offsets, the saturating stack height, 256-bit withdrawal sums, 64-bit block numbers,
  nonces and child gas.

Where the code and its comments or promises part, the model follows the code:

- The block counter of the capture overflows when the range ends at the last 64-bit number: a build with
  overflow checks, such as the dev profile, stops at the increment; the release profile wraps, and the loop
  then fails on the ended stream (`CaptureInOrder` models both).
- An expected nonce above 64 bits is saturated, so the post-state check takes it for the largest nonce
  (`ExactIffNoncesFit`).
- A jump to a random "invalid" target can land on a real destination of another stack level
  (`UnpatchedJumpCanLand`); `TrackedHeightIsReal` gives the exact condition on a run, `RunsOnTrackIff` the one
  on the program.
- The error cell of the worker pool, named for the first error, keeps the last one stored (`LastErrorWins`,
  `SecondErrorReplacesFirst`); `FirstErrorIffSame` gives the exact condition.
- A transaction abandoned by an execution error leaves the transfers of its open frames
  (`InspectorFlattensTrees`, `OpenTransfers`).
- Gas that a frame reports without stepping, such as a precompile's, is booked nowhere: the booked total is
  the root frame's consumption less the signed sum of such reports. Where no frame reports less than its steps
  consumed, conservation holds exactly when every frame reports just that (`GasIsConserved`); otherwise too
  much and too little can cancel (`MisreportsCanCancel`).

## Model

| member | source | states |
|---|---|---|
| BlobFee.ReservePriceExceedsBlobPrice | crates/eest/src/blockchaintest/execute.rs:1046-1067 | For a base fee below 2^256, an excess below 2^64, a fraction and minimum fee below 2^128, the early-exit loop terminates, no 512-bit operation wraps, and the answer is true exactly when base cost times base fee exceeds 2^17 times the full unbounded EIP-4844 price |
| BlobFee.Iteration | crates/eest/src/blockchaintest/execute.rs:1057-1065 | One loop iteration: every 512-bit product and sum equals the unbounded one, the sum stays below 2^384 because it is capped by the reserve, and the rest of the Taylor sum is preserved |
| BlobFee.TermFalls | crates/eest/src/blockchaintest/execute.rs:1057-1065 | Past numerator/denominator a nonzero term strictly falls, so index and term together are a termination measure |
| BlobFee.FakeExponentialValues | crates/eest/src/blockchaintest/execute.rs:1046-1067 | The unbounded price takes two values of the reference tests of EIP-4844 |
| Arith.WrapIsRemainder | crates/eest/src/blockchaintest/execute.rs:1051-1065 | The wrap-around of a machine word is the remainder by its number of values |
| BlobFee.NextExcessBlobGas | crates/eest/src/blockchaintest/execute.rs:1020-1040 | For every checked schedule and parent, the 64- and 128-bit computation is the unbounded update and fits 64 bits: zero below the target, at or above it the parent's total less the target, or, when the reserve price exceeds the blob price, the parent's excess plus the floor of its used gas times (max - target) / max |
| BlobFee.NextExcessUpdates | crates/eest/src/blockchaintest/execute.rs:1020-1040 | The unbounded update of EIP-7918 falls into its three cases, the share of the used gas given by the two inequalities that make it a floor |
| BlobFee.UpdateIsUnique | crates/eest/src/blockchaintest/execute.rs:1020-1040 | Only one excess meets the three cases |
| BlobFee.AddScaled | crates/eest/src/blockchaintest/execute.rs:1030-1036 | The reserve branch: the 128-bit product and the cast to 64 bits lose nothing, and the sum does not overflow |
| BlobFee.ExcessAtMostCarried | crates/eest/src/blockchaintest/execute.rs:1020-1040 | The new excess is at most the parent's excess plus its used blob gas |
| BlobFee.PlainUpdate | crates/eest/src/blockchaintest/execute.rs:1020-1040 | Without a base cost the update is the EIP-4844 formula |
| BlobFee.MonotoneInUsed | crates/eest/src/blockchaintest/execute.rs:1020-1040 | More blob gas used in the parent never lowers the new excess |
| BlobFee.ReserveBranchIsNoLower | crates/eest/src/blockchaintest/execute.rs:1030-1039 | The reserve branch yields at least the target subtraction if and only if the parent used at most its maximum blob gas or the target is zero |
| ChainExecutor.ValidateBlockHeader | crates/eest/src/blockchaintest/execute.rs:970-1014 | Accepts exactly the headers that follow the rules: at most 8 MiB from Osaka on, no blob fields without blob parameters, and with them the used blob gas and, after a known parent, an excess that is the update of the parent's |
| ChainExecutor.RulesOfHeader | crates/eest/src/blockchaintest/execute.rs:970-1014 | The header checks pass exactly the headers that follow the rules written out |
| ChainExecutor.FailureAt | crates/eest/src/blockchaintest/execute.rs:592-805 | The first check that does not pass decides about the block |
| ChainExecutor.Judged | crates/eest/src/blockchaintest/execute.rs:426-818 | A block is judged invalid if and only if its access list is invalid, or it names another parent, breaks a header rule or has a first failing check that finds it invalid; and valid if and only if none of its checks fails |
| ChainExecutor.Chain.Resolve | crates/eest/src/blockchaintest/execute.rs:568-818 | A block is discarded if and only if an exception is expected and parent hash, header or the first failing check finds it invalid; it is to be committed if and only if none is expected, it has a header and everything passes, so an invalid header is never committed, and is discarded when an exception is expected |
| ChainExecutor.Chain.ExecuteBlock | crates/eest/src/blockchaintest/execute.rs:426-890 | On every exit path database view, whole block environment, parent hash and parent header are all unchanged or all advanced to the block; only a state-root mismatch is an error after a commit. A faulty block, a header that breaks a rule against the known parent included, never commits and succeeds exactly when an exception is expected; a faultless one commits exactly when none is, and then succeeds exactly when its state root matches; any other fails unchanged |
| ChainExecutor.Chain.CommitBlock | crates/eest/src/blockchaintest/execute.rs:847-856 | The commit applies exactly the block's changes and its hash, and keeps the chain linked and all recorded hashes answered |
| ChainExecutor.ExecuteNext | crates/eest/src/blockchaintest/execute.rs:323-374 | One block of a case succeeds if and only if it turns out as expected after the blocks expected before it, and keeps the committed blocks equal to the expected ones |
| ChainExecutor.TurnsOutAsTold | crates/eest/src/blockchaintest/execute.rs:323-374 | A block turns out as expected if and only if it is faulty where an exception is expected, and faultless with its state root where none is |
| ChainExecutor.ExecuteCase | crates/eest/src/blockchaintest/execute.rs:299-390 | Success if and only if every block turns out as expected and the last hash is `lastblockhash`; then every block expecting an exception is faulty and every other one faultless, the committed blocks are exactly the latter, parent-hash linked from genesis, and each with blob parameters and a known parent carries the unbounded update of its predecessor's excess; after any outcome they are the expected ones of a prefix |
| ChainExecutor.BlockHashesAreKept | crates/eest/src/blockchaintest/execute.rs:845-856 | Every committed block's number maps to its hash if and only if blocks with equal numbers have equal hashes |
| ChainExecutor.LatestWins | crates/eest/src/blockchaintest/execute.rs:845-856 | A number maps to the hash of the latest committed block with that number |
| PostState.CheckAccount | crates/eest/src/blockchaintest/execute.rs:1204-1258 | Accepts exactly when balance, saturated nonce, code and the whole storage function agree: code in the account, else in the contract table under its hash, else empty; an absent account read as empty and a missing slot as zero |
| PostState.CheckVacant | crates/eest/src/blockchaintest/execute.rs:1259-1280 | Accepts exactly when no unexpected account is live or holds a nonzero slot |
| PostState.ValidatePostState | crates/eest/src/blockchaintest/execute.rs:1200-1280 | Accepts exactly the databases that hold the expected state with saturated nonces |
| PostState.ExactIffNoncesFit | crates/eest/src/blockchaintest/execute.rs:1200-1280 | The check means the expected state for every database if and only if every expected nonce fits 64 bits |
| CaptureLedger.Overlay.ApplyPost | crates/cli/src/capture/overlay.rs:39-82 | The overlay of every address becomes the one its post entry leads to, others unchanged |
| CaptureLedger.Overlay.ApplyAuthorizationWrites | crates/cli/src/capture/overlay.rs:84-110 | Exactly the recovered authorities on this chain with a usable nonce are marked |
| CaptureLedger.Overlay.ApplyWithdrawals | crates/cli/src/capture/overlay.rs:112-122 | Every address is credited its withdrawals of the block, in gwei, saturating |
| CaptureLedger.Overlay.ApplyWithdrawal | crates/cli/src/capture/overlay.rs:124-129 | One address is revived and credited, others unchanged |
| CaptureLedger.GweiNeverSaturates | crates/cli/src/capture/overlay.rs:112-122 | A 64-bit amount of gwei is credited as exactly 10^9 times as many wei |
| CaptureLedger.CaptureBuilder.CaptureBalanceField | crates/cli/src/capture/builder.rs:182-216 | Records the traced balance less earlier withdrawals, once, and fails exactly on an underflow; no other account changes |
| CaptureLedger.CaptureBuilder.CaptureNonceField | crates/cli/src/capture/builder.rs:217-224 | Records the first traced nonce the overlay does not supply |
| CaptureLedger.CaptureBuilder.CaptureCodeField | crates/cli/src/capture/builder.rs:225-243 | Records the first traced code the overlay does not supply; it fails only on a hash collision, and the shared table keeps every other account's code |
| CaptureLedger.CaptureBuilder.CaptureStorageSlots | crates/cli/src/capture/builder.rs:262-291 | The loop over slots records exactly the new nonzero slots and notes the zero ones, in any order |
| CaptureLedger.CaptureBuilder.CaptureAccountEntry | crates/cli/src/capture/builder.rs:90-141 | One trace entry: absent probes, skipped absent accounts, fields and storage, as the per-account rule says; a zero-only entry, or one of an absent account, records nothing at all, and the former marks the account absent and its slots zero |
| CaptureLedger.CaptureBuilder.CaptureBaseRequirements | crates/cli/src/capture/builder.rs:83-142 | The whole pre-state trace acts on each account independently, whatever the order of its entries |
| CaptureLedger.CaptureTx | crates/cli/src/capture/mod.rs:109-122 | One transaction is captured before its writes enter the overlay, at every address |
| CaptureLedger.TransactionsComeFirst | crates/cli/src/capture/mod.rs:104-144 | In the history of an address each transaction of a block is one event with its own trace entries, in order, and the withdrawals follow |
| CaptureLedger.BlocksInOrder | crates/cli/src/capture/mod.rs:86-144 | In the history of an address the events of a block stand after those of all earlier blocks and before those of later ones |
| CaptureLedger.CaptureRange | crates/cli/src/capture/mod.rs:86-144 | The two ledgers after a whole range are, at every address, the fold of that address's events, told by its history: it fails if and only if some traced balance is below what was withdrawn; the base holds exactly the accounts with a recorded balance, nonce, code or slot, and none that was only seen by zero-only entries |
| CaptureLedger.BaseOfRange | crates/cli/src/capture/mod.rs:86-144 | For any traces, an account is in the base if and only if something of it is recorded, and not if all its entries are zero-only |
| CaptureLedger.CaptureHonestRange | crates/cli/src/capture/mod.rs:86-144 | For every honest range the capture succeeds, replay from the captured base sees at every address what each transaction's pre-state trace saw, only values of the range start are recorded, and the base holds exactly the accounts with a record, none that was only probed |
| CaptureReplay.CaptureAppend | crates/cli/src/capture/mod.rs:86-144 | A capture of two consecutive event lists is the second one continued from the first |
| CaptureReplay.CaptureStep | crates/cli/src/capture/builder.rs:83-142 | Capturing an honest event never fails, keeps the base on every touched key and settles every newly observed one |
| CaptureReplay.OverlayStep | crates/cli/src/capture/overlay.rs:39-129 | Applying an honest event to the overlay keeps the simulation invariant |
| CaptureReplay.Simulate | crates/cli/src/capture/mod.rs:86-144 | From any point of an honest run, later captures never change the base on touched keys, and every replay of the final base sees the rest of the traces |
| CaptureReplay.ReplaySeesTraces | crates/cli/src/capture/mod.rs:86-144 | Replay simulation of one account, for every honest run with deletions, revivals, withdrawals and authorizations |
| CaptureReplay.RecordedIsRangeStart | crates/cli/src/capture/builder.rs:182-291 | A recorded balance is the range-start balance, recorded nonzero nonces, codes and slots are those of the range start, zero slots are not recorded, and an account the range creates leaves nothing |
| CaptureReplay.OnlyNonzeroRecorded | crates/cli/src/capture/builder.rs:262-291 | Without any hypothesis, no capture ever records a zero slot |
| CaptureReplay.OnlyRecordsMaterialize | crates/cli/src/capture/builder.rs:182-291 | Without any hypothesis, over every capture an account is materialized if and only if a balance, a nonce, a code or a slot of it is recorded |
| CaptureReplay.ProbesRecordNothing | crates/cli/src/capture/builder.rs:90-141 | An account that only zero-only entries name is never materialized, and its capture never fails |
| CaptureMeaning.OverlayOfHistory | crates/cli/src/capture/overlay.rs:39-129 | Over every history, honest or not, the overlay knows exactly what was written, and how much was withdrawn, since the last deletion, and whether a deletion was undone |
| CaptureMeaning.CaptureMeans | crates/cli/src/capture/builder.rs:83-291 | Over every history, honest or not: the capture fails if and only if a traced balance is below what was withdrawn; otherwise of each key exactly the first observation is recorded that is not zero-only, not of an account known to be absent, and not supplied by the range; a balance less the withdrawals |
| CaptureReplay.SkippedAuthorizationHidesNonce | crates/cli/src/capture/overlay.rs:84-110 | An authorization the chain skipped, of an unobserved authority, makes the replay see nonce zero: it is right if and only if the nonce was zero |
| CaptureOrder.PullUntil | crates/cli/src/capture/mod.rs:87-98 | Pulls until the wanted block arrives and parks exactly the others; it returns the first arrival of that block with every fetch before it successful, a fetch error exactly at the first failed fetch before it, and an ended stream only once the whole stream was read |
| CaptureOrder.TakeNext | crates/cli/src/capture/mod.rs:84-98 | Takes the next block from the parked ones or the stream, keeping the parked ones exact, and never reads past a failed fetch |
| CaptureOrder.NothingLeft | crates/cli/src/capture/mod.rs:80-144 | Once the range is processed nothing is parked and the stream is used up |
| CaptureOrder.CaptureLoop | crates/cli/src/capture/mod.rs:77-144 | The loop itself, for the arrival order that an index tells |
| CaptureOrder.CaptureInOrder | crates/cli/src/capture/mod.rs:77-144 | Whatever the order in which the blocks of the range arrive, exactly these blocks are processed, ascending, with nothing left parked, unless the range ends at the last 64-bit number, when it always fails: at the increment with overflow checks, on the ended stream without. For any stream, a failed fetch ends the loop, and a success has processed the blocks of the range in order, each read from the stream |
| WorkerPool.FatesMoveForward | crates/eest/src/compiled.rs:56-141 | A step claims a file at most once and settles it at most once |
| WorkerPool.StepInv | crates/eest/src/compiled.rs:56-141 | Every step of every worker keeps the pool invariant |
| WorkerPool.RunInv | crates/eest/src/compiled.rs:56-141 | Every schedule keeps the pool invariant |
| WorkerPool.RunLogged | crates/eest/src/compiled.rs:56-141 | Over every schedule each file runs at most once, its run decides its fate, and no other file has one |
| WorkerPool.PoolIsSafe | crates/eest/src/compiled.rs:35-141 | Over every schedule: no file runs twice and each file's fate is what its run came to; success means every file ran without error and executed tests, skipped tests and database statistics are each the sum over the files; an error is one a claimed file returned; a panic lost a claimed file; after the stop flag a worker claims at most one more file |
| WorkerPool.LastErrorWins | crates/eest/src/compiled.rs:106-110 | Over every schedule the error cell holds the error stored last |
| WorkerPool.FirstErrorIffSame | crates/eest/src/compiled.rs:106-141 | The pool keeps the first error stored if and only if it equals the last one |
| WorkerPool.SecondErrorReplacesFirst | crates/eest/src/compiled.rs:106-110 | A concrete schedule of two failing workers whose second error replaces the first |
| WorkerPool.TotalUpdate | crates/eest/src/compiled.rs:26-33 | Booking a file adds exactly its own share to the total |
| WorkerPool.BookedInEachField | crates/eest/src/compiled.rs:26-33 | The booked summary is, field by field, the plain sum over the booked files |
| WorkerPool.NoDeadlock | crates/eest/src/compiled.rs:56-141 | While a worker is not finished, some worker can move |
| WorkerPool.SchedulesEnd | crates/eest/src/compiled.rs:56-141 | Every schedule's length is bounded by a measure of its start |
| WorkerPool.CanFinish | crates/eest/src/compiled.rs:56-141 | From every reachable state some schedule finishes all workers, whatever its files come to |
| WorkerPool.EveryScheduleFinishes | crates/eest/src/compiled.rs:56-141 | Every worker passes the barrier, after an error or a panic too: every schedule is bounded, one that cannot go on has finished all workers, and every other one extends to one that has |
| FuzzShards.JoinOrderIsIrrelevant | crates/cli/src/fuzzer/mod.rs:143-148 | The merged coverage is the same for every order in which the workers are joined |
| FuzzShards.MergeLast | crates/cli/src/fuzzer/coverage.rs:60-95 | Any worker's table can be merged in last, because merging associates and commutes |
| FuzzShards.IncAllMerges | crates/cli/src/fuzzer/coverage.rs:87-95 | Recording on a table is merging in what is recorded on an empty one |
| FuzzShards.CountsOccurrences | crates/cli/src/fuzzer/coverage.rs:23-58 | Recording a list of keys raises the count of each key by the number of times it occurs |
| FuzzShards.CaseIsCounted | crates/cli/src/fuzzer/coverage.rs:23-58 | A case is counted once under its fork, its number of transactions and its outcome, each transaction once under its kind and every feature it shows, each receipt once under its outcome and its error |
| FuzzShards.Coverage.RecordCase | crates/cli/src/fuzzer/coverage.rs:23-48 | Counts one case and exactly its keys on top of the old table |
| FuzzShards.Coverage.RecordOutcome | crates/cli/src/fuzzer/coverage.rs:50-58 | Counts the outcome and every receipt's outcome and error on top of the old table |
| FuzzShards.Coverage.MergeFrom | crates/cli/src/fuzzer/coverage.rs:60-95 | The table becomes the pointwise sum of both |
| FuzzShards.Coverage.RecordHandled | crates/cli/src/fuzzer/mod.rs:129-137 | One turn of a worker counts the case and exactly the keys of the case and its outcome |
| FuzzShards.RunKeeps | crates/cli/src/fuzzer/mod.rs:103-150 | Over every schedule, each drawn case is handled or held by exactly one worker, and the tallies are those of the handled cases |
| FuzzShards.SchedulesEnd | crates/cli/src/fuzzer/mod.rs:121-139 | Every schedule's length is bounded by a measure of its start |
| FuzzShards.EveryScheduleFinishes | crates/cli/src/fuzzer/mod.rs:103-150 | Every schedule is bounded, one that cannot go on has let all workers exit, and every other one extends to one that has |
| FuzzShards.RecordInOrder | crates/cli/src/fuzzer/mod.rs:118-139 | One recorder run over the cases in order yields the sequential table and the case count |
| FuzzShards.JoinWorkers | crates/cli/src/fuzzer/mod.rs:143-148 | The main thread's loop yields the summed executed cases and the merged coverage of all workers |
| FuzzShards.ShardedIsSequential | crates/cli/src/fuzzer/mod.rs:95-155 | For any number of workers, any schedule that lets them exit and any join order, each case is handled once, executed and recorded cases are the case count, and the merged coverage is what recording every case and outcome in order gives: forks, sizes, kinds, features, outcomes and errors are counted as often as cases, transactions and receipts have them |
| TransferInspector.Inspector.RecordTransfer | crates/inspectors/src/transfer.rs:134-161 | Appends the transfer and, if configured, its log to the innermost frame; a zero value records nothing |
| TransferInspector.Inspector.Start | crates/inspectors/src/transfer.rs:101-121 | Opens a frame, dropping stale frames at a root message, and records its value transfer |
| TransferInspector.Inspector.End | crates/inspectors/src/transfer.rs:123-132 | Closes a frame: truncates on failure, else hands its logs to the parent or the result |
| TransferInspector.Inspector.HandleLog | crates/inspectors/src/transfer.rs:168-174 | Adds a log to the innermost frame when logs are collected |
| TransferInspector.Inspector.Selfdestruct | crates/inspectors/src/transfer.rs:212-220 | Records the destroyed contract's balance transfer |
| TransferInspector.HooksKeepFramesInOrder | crates/inspectors/src/transfer.rs:101-220 | Any hook, well nested or not, keeps frame positions nondecreasing and within the transfers, and only a failing end drops transfers, none from before its frame |
| TransferInspector.HookRunsKeepSettled | crates/inspectors/src/transfer.rs:101-220 | Over any sequence of hooks, also after an abandoned transaction, frames stay in order and nothing recorded before the outermost open frame is ever dropped |
| TransferInspector.TreeExtends | crates/inspectors/src/transfer.rs:101-220 | A nested call extends transfers and the enclosing frame's logs by the flattening of its tree without failed subtrees |
| TransferInspector.InspectorFlattensTrees | crates/inspectors/src/transfer.rs:101-220 | After any transactions, completed or abandoned, transfers and logs are the in-order flattening of the call trees without their failed subtrees |
| OpcodeGas.Inspector.Step | crates/inspectors/src/opcode.rs:82-96 | Counts a defined opcode and leaves the step pending with the gas it started with |
| OpcodeGas.Inspector.StepEnd | crates/inspectors/src/opcode.rs:98-113 | Takes the last pending step and books its cost less its children's, saturating |
| OpcodeGas.Inspector.ExcludeChildGas | crates/inspectors/src/opcode.rs:69-78 | Adds a child's gas to the last pending step if that has the spawning opcode |
| OpcodeGas.Inspector.MessageEnd | crates/inspectors/src/opcode.rs:115-161 | The end of a call or create adds the gas it spent, saturating, to the last pending step if the opcode of that step spawns messages of this kind, and changes nothing else; the root frame changes nothing |
| OpcodeGas.SpawningOpcodeInverts | crates/inspectors/src/opcode.rs:129-156 | For each of the six kinds, the opcode the hooks look for is the one whose instruction spawns messages of that kind |
| OpcodeGas.DefinedBytes | crates/evm2/src/interpreter/opcode.rs:350-640 | The bytes without an instruction, range by range |
| OpcodeGas.RunBooks | crates/inspectors/src/opcode.rs:69-161 | Every well-nested run returns the pending stack to its entry height, and its totals of gas and counts are those of its steps |
| OpcodeGas.RunAttributes | crates/inspectors/src/opcode.rs:69-161 | Every well-nested run books each step's own gas, and counts the step, under the step's opcode, for every opcode |
| OpcodeGas.BookedGas | crates/inspectors/src/opcode.rs:69-161 | The booked gas is the root frame's consumption less what frames report beyond their steps |
| OpcodeGas.NothingUnstepped | crates/inspectors/src/opcode.rs:115-161 | Among frames that report at least what their steps consumed, nothing is unstepped if and only if every frame reports exactly that |
| OpcodeGas.GasIsConserved | crates/inspectors/src/opcode.rs:69-161 | Each opcode holds what its own steps cost; all of them hold the root frame's consumption less the signed unstepped total; frames that report exactly their steps conserve it, and where no frame reports less than its steps, no opcode books more than the whole and conservation holds only then |
| OpcodeGas.MisreportsCanCancel | crates/inspectors/src/opcode.rs:69-161 | A concrete regular run whose frames report too much and too little and still balance |
| Bytecode.ParseEncode | crates/evm2/src/interpreter/opcode.rs:350-630 | Round trip: the bytes of well-formed instructions parse into exactly those instructions |
| Bytecode.OffsetInjective | crates/evm2/src/bytecode/analysis.rs:19-60 | Different instructions start at different byte offsets |
| Bytecode.ScanIsExact | crates/evm2/src/bytecode/analysis.rs:31-60 | The jump destination scan finds exactly the `JUMPDEST` instructions on instruction boundaries, when one-byte immediates of relative stack opcodes scan cleanly |
| Bytecode.BytesRoundTrip | crates/cli/src/fuzzer/program.rs:626-651 | A value that fits is read back from its big-endian bytes |
| Generator.AppendWellBuilt | crates/cli/src/fuzzer/program.rs:653-663 | Emitting an instruction with its real arity keeps code, heights, supplies and patched jumps right |
| Generator.PatchWellBuilt | crates/cli/src/fuzzer/program.rs:648-651 | Overwriting a placeholder changes exactly one immediate and keeps everything else right |
| Generator.LinkNew | crates/cli/src/fuzzer/program.rs:479-500 | A placeholder patched after a height-neutral block links its jump to the destination emitted there |
| Generator.PushedWord | crates/cli/src/fuzzer/program.rs:626-641 | A word's push has a real push opcode and reads back as the word |
| Generator.PrecompileInput | crates/cli/src/fuzzer/precompile.rs:96-115 | Precompile inputs are at most 864 bytes, which the code length bound needs |
| Generator.Program.Emit | crates/cli/src/fuzzer/program.rs:653-657 | Appends one opcode and moves the saturating height; the program stays well built if the declared arity is the opcode's and the stack holds what it needs |
| Generator.Program.EmitWithImmediate | crates/cli/src/fuzzer/program.rs:659-663 | The same for opcodes with a one-byte immediate |
| Generator.Program.PushImmediate | crates/cli/src/fuzzer/program.rs:636-641 | Appends the push of exactly these bytes |
| Generator.Program.PushWord | crates/cli/src/fuzzer/program.rs:626-630 | Appends a push that reads back as the word |
| Generator.Program.PushJumpPlaceholder | crates/cli/src/fuzzer/program.rs:643-646 | Appends a two-byte placeholder and returns its position |
| Generator.Program.PatchJump | crates/cli/src/fuzzer/program.rs:648-651 | Writes the current position, cut to 16 bits, over the placeholder and nothing else |
| Generator.Program.Forward | crates/cli/src/fuzzer/program.rs:479-494 | A forward jump adds exactly one jump, linked to the destination emitted last, keeps every other one, and leaves the tracked height exact |
| Generator.Program.RandomJump | crates/cli/src/fuzzer/program.rs:468-477 | An invalid jump adds exactly one random jump, after the push of its word, and no link |
| Generator.Program.SkippedBlock | crates/cli/src/fuzzer/program.rs:496-500 | A skipped block is height-neutral and only appends |
| Generator.Program.StackNeutralStatement | crates/cli/src/fuzzer/program.rs:502-520 | Each statement of a skipped block is height-neutral |
| Generator.Program.StackShuffle | crates/cli/src/fuzzer/program.rs:522-535 | Fills up to the words it needs before it duplicates, swaps or exchanges |
| Generator.Program.RelativeStackShuffle | crates/cli/src/fuzzer/program.rs:537-558 | The immediates decode to indices the filled stack holds, and scan cleanly |
| Generator.Program.StackCleanup | crates/cli/src/fuzzer/program.rs:565-570 | Pops only words that are there |
| Generator.Program.Arithmetic | crates/cli/src/fuzzer/program.rs:75-123 | Exact emissions, at most 100 bytes and seven more words |
| Generator.Program.Memory | crates/cli/src/fuzzer/program.rs:125-165 | Exact emissions, at most 62 bytes |
| Generator.Program.Storage | crates/cli/src/fuzzer/program.rs:167-177 | Exact emissions within the statement bound |
| Generator.Program.Environment | crates/cli/src/fuzzer/program.rs:179-213 | Exact emissions within the statement bound |
| Generator.Program.Calldata | crates/cli/src/fuzzer/program.rs:215-229 | Exact emissions within the statement bound |
| Generator.Program.ExternalAccount | crates/cli/src/fuzzer/program.rs:231-261 | Exact emissions within the statement bound |
| Generator.Program.Log | crates/cli/src/fuzzer/program.rs:263-280 | Exact emissions within the statement bound |
| Generator.Program.PrecompileCall | crates/cli/src/fuzzer/program.rs:282-318 | Exact emissions within the statement bound, for every input length |
| Generator.Program.GenericCall | crates/cli/src/fuzzer/program.rs:320-373 | Exact emissions within the statement bound |
| Generator.Program.Returndata | crates/cli/src/fuzzer/program.rs:375-392 | Exact emissions within the statement bound |
| Generator.Program.Cancun | crates/cli/src/fuzzer/program.rs:394-415 | Exact emissions within the statement bound |
| Generator.Program.Create | crates/cli/src/fuzzer/program.rs:417-457 | Exact emissions within the statement bound |
| Generator.Program.Jump | crates/cli/src/fuzzer/program.rs:459-494 | Exact emissions within the statement bound; exactly one new jump of the kind chosen, linked to the destination emitted last if that is a forward jump and random if not |
| Generator.Program.Selfdestruct | crates/cli/src/fuzzer/program.rs:560-563 | Exact emissions within the statement bound |
| Generator.Program.RawInvalidish | crates/cli/src/fuzzer/program.rs:572-582 | A truncated push is the only emission that gives up well-builtness, and is remembered |
| Generator.Program.Literal | crates/cli/src/fuzzer/program.rs:592-600 | Exact emissions within the statement bound |
| Generator.BytesBack | crates/cli/src/fuzzer/program.rs:620-624 | The big-endian bytes of the word that bytes stand for are these bytes |
| Generator.WritesHoldBytes | crates/cli/src/fuzzer/program.rs:584-590 | Every byte of the input is the matching byte of the word stored for its chunk |
| Generator.WritesPlay | crates/cli/src/fuzzer/program.rs:584-590 | Run on any stack and memory, the emitted stores find the offset on top, put all the bytes into memory from the given offset on, write no other chunk and leave the stack as it was |
| Generator.Program.WriteMemory | crates/cli/src/fuzzer/program.rs:584-590 | Emits exactly the stores of all chunks, each at its offset, height-neutral and in bounded code |
| Generator.Program.FinishReturn | crates/cli/src/fuzzer/program.rs:602-606 | Exact emissions of the closing return or revert |
| Generator.Program.Trim | crates/cli/src/fuzzer/program.rs:47-49 | Pops back to sixteen words without ever saturating |
| Generator.EmitPlanned | crates/cli/src/fuzzer/program.rs:653-663 | Every emission, honest about its arity or not, keeps the plan of the program right |
| Generator.ChosenNext | crates/cli/src/fuzzer/program.rs:459-466 | One more jump of the next kind keeps all jumps as chosen |
| Generator.Program.AnyStatement | crates/cli/src/fuzzer/program.rs:25-46 | Every statement either adds one jump of the kind drawn or changes no jump at all, and stays within the statement bounds |
| Generator.Program.Generate | crates/cli/src/fuzzer/program.rs:14-61 | Every generated program, for all kinds of jumps drawn: no emission saturates or misdeclares its arity, the height never passes 23, the code stays below 2^16 bytes, the n-th jump instruction is of the n-th kind, linked if forward and after the push of a random word if not, and without a truncated push the program is well built |
| GeneratorPaths.DestsOnBoundaries | crates/evm2/src/bytecode/analysis.rs:19-60 | The destinations the interpreter scans are the offsets of the emitted `JUMPDEST` instructions |
| GeneratorPaths.PatchedJumpsAreValid | crates/cli/src/fuzzer/program.rs:479-500 | The code parses into the emitted instructions, and every patched jump pushes the untruncated offset of a scanned destination behind it |
| GeneratorPaths.PushedOnTop | crates/cli/src/fuzzer/program.rs:468-477 | On every run, the word pushed before a jump is on top when the jump is reached, because no jump is a landing place |
| GeneratorPaths.StepOnTrack | crates/cli/src/fuzzer/program.rs:653-663 | A step leaves the tracked height if and only if an unpatched jump lands on another level |
| GeneratorPaths.TrackedHeightIsReal | crates/cli/src/fuzzer/program.rs:14-61 | On every run, patched jumps taken or not, the real stack height is the tracked one everywhere if and only if every unpatched landing is on its own level |
| GeneratorPaths.OnTrackIsSupplied | crates/cli/src/fuzzer/program.rs:653-663 | On the tracked height every instruction finds the words it needs, below the peak |
| GeneratorPaths.RunsOnTrackIff | crates/cli/src/fuzzer/program.rs:459-500 | Every run of the program has the tracked height everywhere if and only if each random jump that some run takes names no destination or one on its own level |
| GeneratorPaths.PlannedRuns | crates/cli/src/fuzzer/program.rs:14-61 | For every well-built, accounted program: round trip, every forward jump patched with the untruncated offset of a scanned destination, every other one random, and the exact condition for height exactness |
| GeneratorPaths.GenerateProgram | crates/cli/src/fuzzer/program.rs:14-61 | All of this for what the generator returns, for all kinds of jumps drawn: 16-bit code, at most 23 words, and without a truncated push every jump chosen as forward is patched to a valid destination, and height exactness holds under its exact condition |
| GeneratorPaths.UnpatchedJumpCanLand | crates/cli/src/fuzzer/program.rs:468-471 | A concrete well-built, accounted program and run whose random "invalid" jump lands with a stack higher than tracked |
| Glob.WildcardMatch | crates/eest/src/filter.rs:21-57 | True exactly when the value is denoted by the pattern, for any number of parts, empty ones included |
| Glob.MatchRest | crates/eest/src/filter.rs:41-57 | The loop over the parts after the first decides exactly whether they fit the rest of the value in order |
| Glob.MatchIffGaps | crates/eest/src/filter.rs:21-57 | A pattern denotes a value if and only if some choice of gap strings for its stars makes them equal |
| Glob.LeftmostSuffices | crates/eest/src/filter.rs:45-48 | Taking the leftmost occurrence of a part never loses a match |
| Glob.SplitMeans | crates/eest/src/filter.rs:26-27 | Splitting at the stars keeps the meaning of the pattern |
| Minimizer.MinimizeAccounts | crates/cli/src/fuzzer/minimize.rs:19-30 | Keeps the difference; the accounts left are a subsequence with the first two, and for a monotone difference none of the others can be dropped |
| Minimizer.MinimizeStorage | crates/cli/src/fuzzer/minimize.rs:32-44 | Keeps the difference; each storage keeps its largest keys, and each account is minimized in its turn until its smallest key cannot be dropped |
| Minimizer.MinimizeCalldata | crates/cli/src/fuzzer/minimize.rs:46-59 | Keeps the difference; the calldata is a prefix that cannot be halved again |
| Minimizer.MinimizeTargetCode | crates/cli/src/fuzzer/minimize.rs:61-86 | Keeps the difference; the first target's code is the original or a proper prefix followed by `STOP`, and cannot be halved again |
| Minimizer.MinimizeCase | crates/cli/src/fuzzer/minimize.rs:11-17 | If the backends differ on the input they differ on the result, which is the input reduced by all four passes in order, each run until it is stuck |

## Left out

- The interpreter, the journal, block access lists and the JIT: the executor's verdicts, reads and changes are inputs.
- RPC, files, JSON and command lines; malformed trace text, whose parse errors end a capture.
- Hashes and trie roots: abstract values that are only compared; the capture's code hash is assumed free of collisions where a contract says so.
- Fork schedules, block rewards, tracing, hooks and database statistics: table look-ups and output.
- The checks that `execute_case` runs after the last block, compilation errors and the post state, are not part of `ExecuteCase`; the post-state check is `ValidatePostState`.
- Captured block hashes and system calls of a block: they are not part of the traces the ledger reads.
- Deletions that a post trace leaves out: the replay theorem assumes that deletions are reported.
- The case generator, the two backends and the feature masks of generated programs: a case is a function of its number, and the minimizer's difference a fixed predicate.
- Duration-limited fuzzing and fuzzing that stops at a mismatch.
- Overflow of the 64-bit counters in coverage tables, opcode counts and file summaries.
- Poisoned mutexes and barrier internals; the release profile aborts on a panic, so the panic path of the pool matters in unwinding builds.
- The vectorized jump destination analysis: only the scalar scan is modelled.
- Account storages are maps here, not insertion-ordered lists; the minimizer depends on their smallest key only.
- ChainExecutor.Chain.ExecuteBlock: does not say which error a failing check returns beyond its class, because the messages are text; the blob base fee of the environment is an input.
- Generator.Program.RawInvalidish: nothing is claimed about the code after a truncated push, whose missing bytes swallow what follows.
