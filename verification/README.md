# A verified model of Foundry's cheatcode recorder, anvil's polling services and cast's codecs

This project models the parts of the repository that keep state over a whole run, or that promise to
invert one another, and proves what they promise for every run or every input. Each module states the
code's behaviour and, beside it, an independent account of what that behaviour should mean.

- **State-diff recorder** (`StateDiff`, `StateDiffRuns`, `StateDiffReplay`, `StateDiffSummary`,
  `Recorder`). The inspector keeps a stack of vectors of account accesses. `call` and `create` push,
  SLOAD, SSTORE, EXT* and SELFDESTRUCT append, and `call_end` and `create_end` pop, flag and merge. The
  reference is a storage map with a stack of frame checkpoints and a plain log of what was executed.
  In every run the stack, read from the bottom up, is that log, with an item flagged exactly when a frame
  around it has reverted. Replaying the unflagged writes gives the EVM's storage exactly when every
  step meets a condition that can be read before the step. The aggregated diff is the net change.
  `Recorder` is the same recorder as an object; `Drive` ties it to the runs.
- **Broadcast nonces** (`Broadcast`): the queue of transactions and EIP-7702 delegations, against a chain
  that mines the queue in order and consumes nonces as the Behavior section of EIP-7702 says.
- **Gas metering** (`GasMetering`) and **arbitrary storage** (`ArbitraryStorage`): the paused-frame stack
  stays aligned with the open frames; the value cache stays coherent with the accounts that drew from it,
  over runs with frames that are undone, exactly when a condition on the journal holds at each undoing.
- **RLP** (`Rlp`, `RlpText`): the item codec of Appendix B of the Ethereum Yellow Paper with the strict
  canonical-form checks, and the JSON text that items are printed as.
- **JSON** (`JsonUpsert`, `StructTypes`, `StructParsing`): path upsert as a lens, and struct reordering as
  a change of type that does not change what parses.
- **Anvil** (`NodeService`, `LogDelivery`): the block producer and the two log consumers as polling state
  machines under every schedule.
- **cast** (`Radix`, `FixedPoint`, `ChunkedLogs`): printing and parsing 256-bit numbers, fixed-point text,
  and log retrieval in chunks under every pattern of failing requests.

Objects whose methods update their fields are classes, whose methods are proved equal to a function on
values (`Value()`); the theorems about runs are about those functions. `Wrappers` and `JsonDocument` hold
what the modules share. Calls into code outside the
repository, random numbers and the readiness of futures are parameters or events of a run.

## Where the code and its words differ

The model follows the code.

- `stopAndReturnStateDiff` does not stop recording: it returns what was recorded and leaves an empty
  stack behind, also when recording was never started (crates/cheatcodes/src/evm.rs:1401-1410).
- A frame that halts rolls back its writes but is not flagged, because only `is_revert()` is asked
  (crates/cheatcodes/src/inspector.rs:1406-1416). `HaltIsNotFlagged` is a run in which replay and storage
  differ; `ReplayAgreesIffGuarded` says exactly when they agree.
- The error for an upsert key says that a key of just `$` is refused; it names a field called `$`
  (crates/cheatcodes/src/json.rs:704-715). `RefusedIffOnlyDots` says exactly which keys are refused.
- A broadcast create while a delegation of the origin is pending takes the nonce that the delegation was
  told to skip; see `CreateTakesPendingNonce`.
- A delegation is given the authority's next valid nonce, but the simulation does not advance the nonce of
  an authority other than the origin when a transaction takes its delegations along
  (crates/cheatcodes/src/inspector.rs:958-972). A second transaction then carries the same nonces again:
  `SecondTransactionReusesNonce` is such a run, and `OthersHonouredIffGuarded` says exactly when it happens.
- Copies of arbitrary storage are to hold the source's value. The tables are not journaled and the stores
  are, so a reverted frame takes back cells that its loads had drawn, and leaves the cached value.
  `RevertSeparates` is such a run, and `AlwaysCoherentIffGuarded` says exactly when cells and tables agree.
- The chunked log fallback stops before the last block of the range, which the direct request includes
  (crates/cast/src/lib.rs:914-923). `FallbackIsDirectIff` says exactly when the two agree.
- Reordering struct fields is to leave parsing alone, and does not where a scalar stands at a struct whose
  order changes; `ScalarAtStructDependsOnOrder` is an example, and `ReorderedParsesAlikeIff` says exactly
  when parsing is left alone.

## Model

| member | source | states |
|---|---|---|
| `StateDiffRuns.RecordedInOrderWithFlags` | crates/cheatcodes/src/inspector.rs:1397-1441 | In every reachable state of every run, the flattened stack lists what was executed since recording began, in execution order, and an item is flagged if and only if some frame open around it has ended in a revert, at any depth. |
| `StateDiffRuns.StackShapeAlways` | crates/cheatcodes/src/inspector.rs:1434-1438 | In every reachable state no vector is empty, there is one vector per open frame entered while recording plus at most one residual vector below them, and each starts with its own frame's record, one depth below the frame. |
| `StateDiffRuns.OnlyNewFramesAreRecorded` | crates/cheatcodes/src/inspector.rs:2476-2521 | A storage access is appended at the very end if its frame was entered while recording; if its frame was already open, the stack does not change at all. |
| `StateDiffRuns.EndHooksMeetTheirOwnRecord` | crates/cheatcodes/src/inspector.rs:1418-1432 | The debug assertions of the end hooks cannot fail: a popped vector at the current depth starts with a record of the kind of frame that is ending. |
| `StateDiffRuns.RunInv` | crates/cheatcodes/src/inspector.rs:1397-1441 | Shape and contents hold in every state reached from any state without recording. |
| `StateDiffRuns.InvStep` | crates/cheatcodes/src/inspector.rs:1002-1057 | Every event keeps the stack's shape and its agreement with the reference log. |
| `StateDiffRuns.EnterStep` | crates/cheatcodes/src/inspector.rs:1033-1056 | Entering a call or create keeps shape and contents. |
| `StateDiffRuns.RecordedAccessStep` | crates/cheatcodes/src/inspector.rs:2476-2521 | An access in a recorded frame is logged once, last, whether it joins a record, a `Resume` record or a new one. |
| `StateDiffRuns.IgnoredAccessStep` | crates/cheatcodes/src/inspector.rs:2482-2484 | An access in a frame opened before recording leaves the stack as it is. |
| `StateDiffRuns.TouchStep` | crates/cheatcodes/src/inspector.rs:2228-2234 | EXT* and BALANCE accesses are logged in order, also when nothing is pending. |
| `StateDiffRuns.DestructStep` | crates/cheatcodes/src/inspector.rs:2068-2090 | SELFDESTRUCT is logged in order, and not at all when nothing was recorded yet. |
| `StateDiffRuns.EndRecordedStep` | crates/cheatcodes/src/inspector.rs:1833-1884 | Ending a recorded frame merges its vector without reordering, flags exactly the frame's own span on a revert, and gives only the frame's own record the post-call state. |
| `StateDiffRuns.EndPreopenedStep` | crates/cheatcodes/src/inspector.rs:1403-1438 | When execution percolates above the frame recording began in, the residual vector is kept, and flagged as a whole if that frame reverts. |
| `StateDiff.ItemsFlag` | crates/cheatcodes/src/inspector.rs:1406-1416 | Flagging a vector flags every account and storage access in it and changes nothing else. |
| `StateDiff.AppendStorageAccessItems` | crates/cheatcodes/src/inspector.rs:2476-2521 | An accepted access comes after everything recorded so far and leaves the vector's first record in charge, whichever record groups it. |
| `StateDiff.FinishedItems` | crates/cheatcodes/src/inspector.rs:1403-1432 | What finishing a frame does to its items: only the first takes the post-call state, and on a revert all are flagged. |
| `StateDiff.MergeItems` | crates/cheatcodes/src/inspector.rs:1434-1438 | Merging a finished vector into the one below, or pushing it back, neither loses nor reorders anything. |
| `StateDiffReplay.ReplayAgreesIffGuarded` | crates/cheatcodes/src/inspector.rs:1397-1441 | For every run and slot: replaying the unflagged recorded writes over the starting storage gives the slot its present value throughout the run, if and only if every step meets a condition readable before it. |
| `StateDiffReplay.ReplayIsStorage` | crates/cheatcodes/src/inspector.rs:2147-2177 | In every run without halts, for every slot not written by frames already open when recording began, replay equals the storage of the checkpointing EVM at every moment. |
| `StateDiffReplay.CoupledStep` | crates/cheatcodes/src/inspector.rs:1397-1416 | One step keeps replay and storage together exactly when it is guarded. |
| `StateDiffReplay.CheckpointsStep` | crates/cheatcodes/src/inspector.rs:1397-1416 | Every open recorded frame's checkpoint stays the replay of what had been recorded on its entry. |
| `StateDiffReplay.ReplayFlagged` | crates/cheatcodes/src/inspector.rs:1406-1416 | Flagged accesses do not take part in a replay. |
| `StateDiffReplay.ReplayEnd` | crates/cheatcodes/src/inspector.rs:1403-1416 | A revert takes the replay back to what had been recorded when the frame was entered; any other end leaves it. |
| `StateDiffReplay.HaltIsNotFlagged` | crates/cheatcodes/src/inspector.rs:1406-1416 | A legal run with one halted call after which replay and storage differ. |
| `StateDiffSummary.EntryIffWriteSurvived` | crates/cheatcodes/src/evm.rs:1528-1580 | For every run: the aggregated diff has an entry for a slot if and only if some recorded write to it lies in no reverted frame, and the entry's new value is the replayed one. |
| `StateDiffSummary.NetChangeIffGuarded` | crates/cheatcodes/src/evm.rs:1528-1580 | For every run and slot: the net change goes from the value when recording began to the present value at every moment of the run, whatever reverted in between, if and only if every step meets the same condition as for replay. |
| `StateDiffSummary.SummaryIsNetChange` | crates/cheatcodes/src/evm.rs:1465-1597 | So over every run guarded at a slot, the slot's entry in the aggregated diff is that change; without an entry the slot has not changed. |
| `StateDiffSummary.GetRecordedStateDiffs` | crates/cheatcodes/src/evm.rs:1465-1597 | The nested loops compute, for every account and slot, the net of all surviving changes, and likewise for balances and nonces. |
| `StateDiffSummary.RecordVector` | crates/cheatcodes/src/evm.rs:1466-1474 | Processing one vector adds exactly its records' changes to the sums. |
| `StateDiffSummary.RecordAccess` | crates/cheatcodes/src/evm.rs:1474-1594 | Processing one record adds exactly its balance, nonce and surviving storage changes. |
| `StateDiffSummary.RecordSlot` | crates/cheatcodes/src/evm.rs:1528-1580 | A surviving write extends its slot's net change and no other; the first previous value is kept. |
| `StateDiffSummary.RecordBalance` | crates/cheatcodes/src/evm.rs:1475-1494 | A changed balance extends the account's net change, keeping the first old balance. |
| `StateDiffSummary.RecordNonce` | crates/cheatcodes/src/evm.rs:1496-1515 | A changed nonce extends the account's net change, keeping the first old nonce. |
| `StateDiffSummary.NetMeaning` | crates/cheatcodes/src/evm.rs:1538-1580 | A key has a net change exactly when it occurs, and it goes from the first occurrence's previous value to the last occurrence's new value. |
| `StateDiffSummary.NetIsReplay` | crates/cheatcodes/src/evm.rs:1575-1579 | The net change of a slot ends at the replayed value. |
| `StateDiffSummary.NetIffSurvived` | crates/cheatcodes/src/evm.rs:1529-1529 | A slot has a net change exactly when some write to it survived. |
| `StateDiffSummary.NetPrevious` | crates/cheatcodes/src/evm.rs:1569-1573 | If every surviving write names the value replayed up to it, the net change starts at the base value. |
| `StateDiffSummary.PreviousAlways` | crates/cheatcodes/src/inspector.rs:2153-2170 | In every run in which replay agrees with storage, every surviving write's previous value is the replay of what precedes it. |
| `Recorder.Drive` | crates/cheatcodes/src/inspector.rs:1397-1441 | Driving the recorder object through any legal run leaves it with exactly the run's stack. |
| `Recorder.StateDiffRecorder.constructor` | crates/cheatcodes/src/inspector.rs:548-548 | A new recorder does not record. |
| `Recorder.StateDiffRecorder.StartStateDiffRecording` | crates/cheatcodes/src/evm.rs:921-929 | Recording starts from an empty stack, whatever was recorded before. |
| `Recorder.StateDiffRecorder.StopAndReturnStateDiff` | crates/cheatcodes/src/evm.rs:1401-1410 | Returns all records in order and leaves an empty stack that goes on recording. |
| `Recorder.StateDiffRecorder.GetStorageAccesses` | crates/cheatcodes/src/evm.rs:1035-1047 | Returns exactly the recorded storage accesses, in execution order. |
| `Recorder.StateDiffRecorder.GetRecordedStateDiffs` | crates/cheatcodes/src/evm.rs:1430-1597 | The sums of the present stack, empty when nothing was ever recorded. |
| `Recorder.StateDiffRecorder.OnCall` | crates/cheatcodes/src/inspector.rs:1002-1057 | Pushes a vector with the call's own record and changes nothing below. |
| `Recorder.StateDiffRecorder.OnCreate` | crates/cheatcodes/src/inspector.rs:1746-1768 | Pushes a vector with the create's own record and changes nothing below. |
| `Recorder.StateDiffRecorder.OnEnd` | crates/cheatcodes/src/inspector.rs:1397-1441 | The in-place pop, flagging and merge is `EndFrame`, whose meaning `FinishedItems` and `MergeItems` give. |
| `Recorder.StateDiffRecorder.OnStorageAccess` | crates/cheatcodes/src/inspector.rs:2476-2521 | The in-place append is `OfferAccess`, whose meaning `AppendStorageAccessItems` gives. |
| `Recorder.StateDiffRecorder.OnTouch` | crates/cheatcodes/src/inspector.rs:2228-2234 | The record joins the topmost vector or opens the first one. |
| `Recorder.StateDiffRecorder.OnSelfDestruct` | crates/cheatcodes/src/inspector.rs:2068-2090 | The record joins the topmost vector, if there is one. |
| `Recorder.StateDiffRecorder.OnEvent` | crates/cheatcodes/src/inspector.rs:2065-2235 | Each event of a run, dispatched to its hook, takes the object one step of the run. |
| `Recorder.FlattenItems` | crates/cheatcodes/src/evm.rs:1402-1408 | Flattening the stack neither loses nor reorders anything. |
| `Recorder.StorageOnlyRecord` | crates/cheatcodes/src/evm.rs:1040-1042 | A record contributes its own storage accesses after those of the records before it. |
| `Recorder.MarkReverted` | crates/cheatcodes/src/inspector.rs:1406-1416 | The nested in-place loops flag every record and every storage access. |
| `Broadcast.NoncesInStepIffGuarded` | crates/cheatcodes/src/inspector.rs:923-984 | For every run under one origin: queued transaction nonces and the origin's delegation nonces form one gap-free, repeat-free interval in consumption order throughout, if and only if delegations start during a broadcast and no broadcast create meets a pending one. |
| `Broadcast.StepIffGuarded` | crates/cheatcodes/src/inspector.rs:923-984 | One step keeps the interval exactly when it is guarded. |
| `Broadcast.QueueHonouredIffGuarded` | crates/cheatcodes/src/inspector.rs:923-984 | For every run under one origin: throughout the run a chain that mines the queue in order honours every transaction and authorization of the origin and ends at the simulated nonce, if and only if every queued transaction takes along delegations that name the nonces after its own and every broadcast create enters its frame. |
| `Broadcast.ChainStepIffGuarded` | crates/cheatcodes/src/inspector.rs:923-984 | One step keeps chain and simulation in agreement exactly when it is guarded. |
| `Broadcast.QueueIsHonoured` | crates/cheatcodes/src/inspector.rs:923-984 | In particular the chain honours the queue of every run that keeps the nonces in one interval. |
| `Broadcast.HonouredIff` | crates/cheatcodes/src/inspector.rs:923-984 | For any queue and account, the chain honours all its transactions and authorizations exactly when the nonces they name count up from the account's nonce. |
| `Broadcast.OthersHonouredIffGuarded` | crates/cheatcodes/src/inspector.rs:923-984 | Over every run, an authority other than the origin has all its authorizations honoured by the chain if and only if every transaction, when it is queued, takes the authority's delegations along only if none queued before does. |
| `Broadcast.CarriesStep` | crates/cheatcodes/src/inspector.rs:923-984 | One step keeps the authority's delegations in at most one transaction exactly when it is guarded. |
| `Broadcast.SecondTransactionReusesNonce` | crates/cheatcodes/src/inspector.rs:958-984 | A run of start, attach, call, attach, call whose two transactions carry the same nonce of another authority, which the chain does not honour twice. |
| `Broadcast.PendingConsecutive` | crates/cheatcodes/src/script.rs:192-209 | Over every run, guarded or not, the pending delegations of each authority have consecutive nonces. |
| `Broadcast.NextNonceMeaning` | crates/cheatcodes/src/script.rs:164-190 | The backward search gives one more than the authority's last pending nonce, else the account nonce, plus one if the authority sends the transaction. |
| `Broadcast.AttachStep` | crates/cheatcodes/src/script.rs:192-220 | Attaching keeps the interval exactly when the origin's first pending delegation is attached during a broadcast. |
| `Broadcast.CallStep` | crates/cheatcodes/src/inspector.rs:923-984 | A broadcast call always keeps the interval, whatever it carries. |
| `Broadcast.CreateStep` | crates/cheatcodes/src/inspector.rs:1700-1740 | A broadcast create keeps the interval exactly when it enters its frame with nothing of the origin pending. |
| `Broadcast.CreateTakesPendingNonce` | crates/cheatcodes/src/inspector.rs:1725-1740 | A run in which a create takes the nonce the next transaction should have had. |
| `Broadcast.TakenNonceIsNotHonoured` | crates/cheatcodes/src/inspector.rs:1725-1740 | The chain does not honour that run's delegation. |
| `Broadcast.EarlyAttachTakesTransactionNonce` | crates/cheatcodes/src/script.rs:178-188 | A delegation attached before the broadcast starts names the transaction's own nonce and is not honoured. |
| `Broadcast.Broadcaster.constructor` | crates/cheatcodes/src/script.rs:354-391 | Nothing is queued, pending or broadcast yet. |
| `Broadcast.Broadcaster.NextNonce` | crates/cheatcodes/src/script.rs:164-190 | The backward loop finds the nonce that `NextNonceMeaning` describes. |
| `Broadcast.Broadcaster.AttachDelegation` | crates/cheatcodes/src/script.rs:98-118 | Appends a delegation with the expected nonce; otherwise fails with nothing changed. |
| `Broadcast.Broadcaster.SignDelegation` | crates/cheatcodes/src/script.rs:122-161 | Without a given nonce signing never fails the nonce check; without attaching nothing changes. |
| `Broadcast.Broadcaster.OnCall` | crates/cheatcodes/src/inspector.rs:884-999 | Queues the transaction with all pending delegations and advances the origin's nonce past its own ones; refuses a blob together with delegations, and a static call in a single-call broadcast. |
| `Broadcast.Broadcaster.OnCreate` | crates/cheatcodes/src/inspector.rs:1700-1740 | Queues a create at the account's present nonce and leaves pending delegations alone. |
| `Broadcast.Broadcaster.OnDeployCode` | crates/cheatcodes/src/fs.rs:366-369 | Lets the next create of an active broadcast be queued at any depth; nothing without a broadcast. |
| `Broadcast.Broadcaster.OnEnd` | crates/cheatcodes/src/inspector.rs:1263-1273 | Drops a single-call broadcast on return to its depth and keeps any other. |
| `Broadcast.Broadcaster.StartBroadcast` | crates/cheatcodes/src/script.rs:354-391 | Starts a broadcast unless one is active. |
| `Broadcast.Broadcaster.StopBroadcast` | crates/cheatcodes/src/script.rs:262-271 | Stops the active broadcast, or fails. |
| `GasMetering.AlwaysAligned` | crates/cheatcodes/src/inspector.rs:254-281 | Over any nesting of entries, exits, pauses, resumes and resets, the paused-frame stack is aligned with the innermost open frames. |
| `GasMetering.EachStepRestoresItsOwnFrame` | crates/cheatcodes/src/inspector.rs:1932-1944 | In every reachable state a step restores what its own frame holds, never a parent's or sibling's gas; the memory fields stay the present ones, and a pending reset refills the frame's gas. |
| `GasMetering.HeldGasIsGivenBack` | crates/cheatcodes/src/inspector.rs:1932-1978 | Over every run, the gas that a step gives back to a frame is the gas the frame held at any earlier moment since it began to hold some, whatever was entered, left and paused in between, until metering is resumed or reset; it is on top of the paused-frame stack. |
| `GasMetering.ExitIsConsistent` | crates/cheatcodes/src/inspector.rs:1990-2003 | Once metering was touched no frame exits with more refunded than spent, and consistent gas is left alone. |
| `GasMetering.InvStep` | crates/cheatcodes/src/inspector.rs:1932-1978 | Every event keeps the alignment. |
| `GasMetering.GasMeter.constructor` | crates/cheatcodes/src/inspector.rs:254-281 | Nothing is paused, touched or held. |
| `GasMetering.GasMeter.PauseGasMetering` | crates/cheatcodes/src/evm.rs:439-445 | Pauses and changes nothing else. |
| `GasMetering.GasMeter.ResumeGasMetering` | crates/cheatcodes/src/inspector.rs:266-272 | Drops all held gas; touches the meter only if it was paused. |
| `GasMetering.GasMeter.ResetGasMetering` | crates/cheatcodes/src/inspector.rs:275-280 | Drops all held gas and asks the next step to reset. |
| `GasMetering.GasMeter.OnInitializeInterp` | crates/cheatcodes/src/inspector.rs:1143-1146 | A frame entered while paused holds its own gas on top. |
| `GasMetering.GasMeter.OnStep` | crates/cheatcodes/src/inspector.rs:1932-1944 | Restores or records the frame's gas and carries out a pending reset. |
| `GasMetering.GasMeter.OnStepEnd` | crates/cheatcodes/src/inspector.rs:1200-1207 | Pops the exiting frame's gas while paused and corrects inconsistent gas. |
| `ArbitraryStorage.AlwaysCoherentIffGuarded` | crates/cheatcodes/src/inspector.rs:296-356 | For every run of mark, copy, load, store and nested frames: every drawn cell holds what its table caches throughout, if and only if every frame that is undone finds in the journal that the drawn cells it stored to held their cached value on entry. |
| `ArbitraryStorage.LookupsNeverFail` | crates/cheatcodes/src/inspector.rs:317-334 | Over every properly nested run, reverts included, each copy's source has a value table, so no lookup fails. |
| `ArbitraryStorage.CoherentIffGuarded` | crates/cheatcodes/src/inspector.rs:2013-2045 | One step keeps drawn cells and tables together exactly when it is guarded. |
| `ArbitraryStorage.CoherentWithoutReverts` | crates/cheatcodes/src/inspector.rs:296-356 | Over every run in which no frame is undone, every drawn cell holds what its table caches. |
| `ArbitraryStorage.UndoLoad` | crates/cheatcodes/src/inspector.rs:320-324 | Undoing a frame gives every cell back what it held before the frame's first journaled store to it. |
| `ArbitraryStorage.RevertSeparates` | crates/cheatcodes/src/inspector.rs:332-355 | A copy draws a value in a frame that reverts: both cells are zero while the table caches the value, and later loads give the copy the old value and the source a new one, for all distinct values. |
| `ArbitraryStorage.DrawnCellsAgree` | crates/cheatcodes/src/inspector.rs:332-355 | Over every guarded run, a source and all its copies agree on every slot they have drawn. |
| `ArbitraryStorage.LoadDraws` | crates/cheatcodes/src/inspector.rs:2024-2044 | A load that generates a value leaves its cell drawn, from the table it had before. |
| `ArbitraryStorage.CoherentStep` | crates/cheatcodes/src/inspector.rs:2013-2045 | Every event but the end of a frame keeps drawn cells equal to what their tables cache, unconditionally. |
| `ArbitraryStorage.SourcesStep` | crates/cheatcodes/src/inspector.rs:308-312 | Every event, the undoing of a frame included, keeps a value table for the source of every copy. |
| `ArbitraryStorage.ResavingSeparates` | crates/cheatcodes/src/inspector.rs:2024-2034 | When a source's slot is cleared and loaded cold again, the source takes a new value and a copy keeps the old one, for all distinct values. |
| `ArbitraryStorage.Arbitrary.constructor` | crates/cheatcodes/src/inspector.rs:284-294 | No marks and no copies yet. |
| `ArbitraryStorage.Arbitrary.OnSetArbitraryStorage` | crates/cheatcodes/src/inspector.rs:298-305 | Marking empties the account's table and sets or clears overwriting; every copy keeps its source. |
| `ArbitraryStorage.Arbitrary.OnCopyStorage` | crates/cheatcodes/src/utils.rs:252-274 | Fails exactly for a target with arbitrary storage; otherwise copies the storage and, if the source has a table, the mark. |
| `ArbitraryStorage.Arbitrary.Sstore` | crates/cheatcodes/src/inspector.rs:317-325 | Writes one cell, journals what it held, and leaves the tables alone. |
| `ArbitraryStorage.Arbitrary.SaveValue` | crates/cheatcodes/src/inspector.rs:317-325 | Cache and storage take the same value. |
| `ArbitraryStorage.Arbitrary.CopyValue` | crates/cheatcodes/src/inspector.rs:332-355 | Returns what the target now holds: the cached value if there is one, else the generated one, which the source takes too. |
| `ArbitraryStorage.Arbitrary.OnSload` | crates/cheatcodes/src/inspector.rs:2013-2045 | Generates, copies or does nothing, and never meets a missing table. |
| `Rlp.RoundTrip` | crates/cast/src/rlp_converter.rs:17-46 | For every item and trailing bytes, decoding the encoding followed by the bytes gives the item and leaves exactly those bytes. |
| `Rlp.RoundTripAll` | crates/cast/src/rlp_converter.rs:34-39 | The same for the payload of a list, element by element. |
| `Rlp.Canonical` | crates/cast/src/rlp_converter.rs:26-46 | Whenever decoding succeeds, encoding the item gives exactly the bytes consumed. |
| `Rlp.CanonicalAll` | crates/cast/src/rlp_converter.rs:34-39 | The same for a list payload. |
| `Rlp.PrefixFree` | crates/cast/src/rlp_converter.rs:17-24 | No encoding is a proper prefix of another; encoding is injective. |
| `Rlp.DecodesIffStartsWithEncoding` | crates/cast/src/rlp_converter.rs:26-46 | A buffer decodes if and only if it starts with some item's encoding. |
| `Rlp.HeaderRoundTrip` | crates/cast/src/rlp_converter.rs:27-32 | Every header that is written reads back with its length, its kind and the position of its payload. |
| `Rlp.HeaderCanonical` | crates/cast/src/rlp_converter.rs:27-32 | Every header that is accepted is the one that would be written. |
| `Rlp.DecodeItem` | crates/cast/src/rlp_converter.rs:27-45 | The loop over the buffer decodes as the recursive definition does, errors included, and advances past exactly one item. |
| `Rlp.Decode` | crates/cast/src/rlp_converter.rs:27-45 | Each decoded element consumes at least one byte, so decoding terminates. |
| `RlpText.PrintRoundTrip` | crates/cast/src/rlp_converter.rs:74-92 | Printing an item, reading the JSON and converting it back gives the item. |
| `RlpText.DecodePrintEncode` | crates/cast/src/lib.rs:1510-1540 | Whatever decodes and is printed is encoded back to the bytes that were consumed. |
| `RlpText.ToItemIffConvertible` | crates/cast/src/rlp_converter.rs:49-64 | Conversion fails exactly when a boolean, an object, bad hex or a number that is no 256-bit unsigned integer occurs at any depth. |
| `RlpText.NumberToItem` | crates/cast/src/rlp_converter.rs:55-57 | A number becomes its shortest big-endian form, of at most 32 bytes, which reads back as the number. |
| `RlpText.AsJsonRoundTrip` | crates/cast/src/rlp_converter.rs:49-64 | Converting the JSON that an item denotes gives the item. |
| `RlpText.ReadPrinted` | crates/cast/src/rlp_converter.rs:74-92 | Reading printed text gives the value it denotes and leaves exactly what follows. |
| `RlpText.HexRoundTrip` | crates/cast/src/rlp_converter.rs:58-58 | Hex text decodes to the bytes it was made from. |
| `JsonUpsert.PutGet` | crates/cheatcodes/src/json.rs:703-745 | Reading the path afterwards gives the new value, and below it the value's inside. |
| `JsonUpsert.PutFrame` | crates/cheatcodes/src/json.rs:703-745 | Every path neither above nor below the written one reads as before. |
| `JsonUpsert.ParentsAreObjects` | crates/cheatcodes/src/json.rs:722-731 | Every path strictly above the written one is an object afterwards. |
| `JsonUpsert.PutPut` | crates/cheatcodes/src/json.rs:703-745 | A second upsert at the same path overrides the first. |
| `JsonUpsert.GetPut` | crates/cheatcodes/src/json.rs:703-745 | Writing what is already there changes nothing. |
| `JsonUpsert.PutsCommute` | crates/cheatcodes/src/json.rs:703-745 | Upserts at unrelated paths can be done in either order. |
| `JsonUpsert.SucceedsIff` | crates/cheatcodes/src/json.rs:719-742 | An upsert succeeds if and only if the path is not empty and everything that exists strictly above its end is an object. |
| `JsonUpsert.UpsertAt` | crates/cheatcodes/src/json.rs:719-742 | The walk in place does what the lens says, and a failing walk leaves the document completely unchanged. |
| `JsonUpsert.UpsertJsonValue` | crates/cheatcodes/src/json.rs:703-745 | Key splitting, value parsing with the string as fallback, and the walk together; on failure nothing changes. |
| `JsonUpsert.SegmentsProper` | crates/cheatcodes/src/json.rs:709-711 | Every segment of a key is nonempty and without dots. |
| `JsonUpsert.SegmentsOfJoin` | crates/cheatcodes/src/json.rs:709-711 | Joining segments with dots and splitting again gives the segments. |
| `JsonUpsert.PathTextRoundTrip` | crates/cheatcodes/src/json.rs:704-711 | Every list of segments is named by joining it after `$.`. |
| `JsonUpsert.RefusedIffOnlyDots` | crates/cheatcodes/src/json.rs:704-715 | A key is refused as empty if and only if it has nothing but dots after its root marker; the key `$` names a field of that name. |
| `StructTypes.ReorderSameIff` | crates/cheatcodes/src/json.rs:752-794 | Reordering that succeeds keeps each struct's fields and types up to order at every depth if and only if the definitions have the same fields. |
| `StructTypes.ReorderKeeps` | crates/cheatcodes/src/json.rs:752-794 | With matching definitions reordering succeeds and changes only field order. |
| `StructTypes.SameOnlyIfMatches` | crates/cheatcodes/src/json.rs:762-772 | A definition with other fields loses or repeats some. |
| `StructTypes.ReorderIdempotent` | crates/cheatcodes/src/json.rs:752-794 | Reordering twice is reordering once, whatever the definitions. |
| `StructTypes.ReorderType` | crates/cheatcodes/src/json.rs:752-794 | The loop succeeds exactly when every definition's fields are found at every depth, and builds the reordered type. |
| `StructTypes.ReorderAll` | crates/cheatcodes/src/json.rs:776-791 | The same for every element of a list of types, failing if one fails. |
| `StructParsing.ParseAlikeIff` | crates/cheatcodes/src/json.rs:392-451 | Types that differ only in field order parse a document alike, whatever reads the scalars, if and only if the document has the wrong shape for both or the types are equal wherever it has a scalar. |
| `StructParsing.SameTypesParseAlike` | crates/cheatcodes/src/json.rs:392-451 | For each scalar reader: equal types at the scalars suffice for the same documents to parse, to the same values up to field order. |
| `StructParsing.DifferenceShows` | crates/cheatcodes/src/json.rs:404-404 | Where the types differ at a scalar of a document of their shape, some scalar reader gives different values for the whole document. |
| `StructParsing.SameTypesFitAlike` | crates/cheatcodes/src/json.rs:408-451 | A document has the shape of both types or of neither. |
| `StructParsing.ParsesOnlyIfFits` | crates/cheatcodes/src/json.rs:408-451 | Only documents of the type's shape parse, whatever reads the scalars. |
| `StructParsing.ReorderedParsesAlikeIff` | crates/cheatcodes/src/json.rs:752-794 | Reordering by matching definitions succeeds, and leaves what parses, and to what, alone if and only if no scalar of a document of the type's shape stands where reordering changes the type. |
| `StructParsing.ByPositionAlikeIff` | crates/cheatcodes/src/json.rs:404-404 | For a scalar that is read as a struct by position, two field orders give the same value if and only if every field finds the same value at its place in both. |
| `StructParsing.ScalarAtStructDependsOnOrder` | crates/cheatcodes/src/json.rs:404-404 | A string with two different numbers, read by position, gives different values before and after the two fields are swapped. |
| `StructParsing.ParseJsonAs` | crates/cheatcodes/src/json.rs:392-406 | Succeeds exactly on the documents of the type, with the value they denote. |
| `StructParsing.ParseJsonArray` | crates/cheatcodes/src/json.rs:408-433 | The same for arrays, with lengths checked for tuples and fixed arrays. |
| `StructParsing.ParseElements` | crates/cheatcodes/src/json.rs:420-430 | All elements parse or the whole fails. |
| `StructParsing.ParseJsonMap` | crates/cheatcodes/src/json.rs:435-451 | Succeeds exactly when every field of the struct is there and parses; other fields are ignored. |
| `NodeService.RunConserves` | crates/anvil/src/service.rs:64-101 | Over every run the miner's batches are those mined and reported, then the one in flight, then the queue, each once and in order; the backend is in exactly one place; a nonempty queue means a block is being mined. |
| `NodeService.PollKeeps` | crates/anvil/src/service.rs:67-100 | Every poll keeps this, takes in exactly what the miner had ready, and returns with a block being mined unless nothing is queued. |
| `NodeService.AdvanceKeeps` | crates/anvil/src/service.rs:74-78 | Advancing production keeps the invariant and takes nothing in. |
| `NodeService.ReportsOnlyGrow` | crates/anvil/src/service.rs:77-77 | Reported outcomes stay reported; later polls only add to the end. |
| `NodeService.BlockProducer.constructor` | crates/anvil/src/service.rs:115-117 | The backend is idle and nothing is queued. |
| `NodeService.BlockProducer.OnPollNext` | crates/anvil/src/service.rs:123-163 | Starts the first queued batch when idle, and hands the backend back with the outcome when mining is done. |
| `NodeService.NodeServiceTask.constructor` | crates/anvil/src/service.rs:50-61 | The service starts with an idle producer and nothing reported. |
| `NodeService.NodeServiceTask.OnPoll` | crates/anvil/src/service.rs:67-100 | The nested loops are one poll of the value model, under every schedule. |
| `LogDelivery.ConsumersAgree` | crates/anvil/src/pubsub.rs:31-62 | Over every notification sequence and polling schedule, what a subscription emitted and still queues equals what a polled filter returned over the same blocks; before that one is a prefix of the other. |
| `LogDelivery.AlwaysConserved` | crates/anvil/src/filter.rs:165-175 | Both consumers deliver exactly the matching logs of the blocks they have taken, in order, over every run. |
| `LogDelivery.PollConserves` | crates/anvil/src/pubsub.rs:31-62 | One subscription poll takes a prefix of the pending blocks and neither loses, repeats nor reorders a log. |
| `LogDelivery.PendingWithWorkLeftIff` | crates/anvil/src/pubsub.rs:54-60 | A poll reports nothing while notifications are left if and only if nothing was queued and the first block that is missing or has matching logs is missing and not the last; the poll consumes up to that block. |
| `LogDelivery.SelectMeaning` | crates/anvil/src/pubsub.rs:176-198 | Selection keeps exactly the matching logs in order, each stamped with its position among all logs of its block, whatever the filter. |
| `LogDelivery.LogIndexIsPosition` | crates/anvil/src/pubsub.rs:178-194 | A delivered log is the one that stands at its log index, with its own transaction and its block's hash, number and timestamp. |
| `LogDelivery.FilterLogs` | crates/anvil/src/pubsub.rs:151-198 | The nested loops with the running 32-bit index compute that selection. |
| `LogDelivery.Fetch` | crates/anvil/src/filter.rs:168-172 | A notified block gives its matching logs, and none if it is not stored. |
| `LogDelivery.LogsSubscription.constructor` | crates/anvil/src/pubsub.rs:22-28 | Nothing is queued yet. |
| `LogDelivery.LogsSubscription.Poll` | crates/anvil/src/pubsub.rs:31-62 | The loop with its early returns is one poll of the value model. |
| `LogDelivery.LogsFilter.constructor` | crates/anvil/src/filter.rs:150-161 | Holds the historic logs until the first poll. |
| `LogDelivery.LogsFilter.Poll` | crates/anvil/src/filter.rs:165-175 | Returns the historic logs once, then the matching logs of all pending blocks, and leaves none pending. |
| `Radix.PrintParseUnsigned` | crates/cast/src/base.rs:104-156 | For every 256-bit number and base, printing with the prefix and parsing with the detected base gives the number back. |
| `Radix.PrintParseSigned` | crates/cast/src/base.rs:373-408 | For every signed 256-bit number, the least and zero included, decimal printing and signed parsing are inverse through two's complement. |
| `Radix.NegativeTextPreservedIff` | crates/cast/src/base.rs:390-400 | A negative decimal text is printed back unchanged if and only if its magnitude is between one and 2^255. |
| `Radix.DigitsMeaning` | crates/cast/src/base.rs:373-388 | Printed digits denote the number, have no leading zero except for zero itself, and are never empty. |
| `Radix.ParseDigits` | crates/cast/src/base.rs:402-408 | Digit strings of 256-bit numbers parse to what they denote. |
| `Radix.DetectPrefixed` | crates/cast/src/base.rs:123-143 | The prefix decides the base for numbers of any size, past 64 bits too. |
| `Radix.DetectDecimal` | crates/cast/src/base.rs:145-154 | Decimal text is detected as decimal, though it is hexadecimal text too. |
| `Radix.ParseNegative` | crates/cast/src/base.rs:390-400 | Negative decimal text parses to the two's complement of its magnitude. |
| `Radix.ShowNegative` | crates/cast/src/base.rs:377-384 | The raw form of a negative number is printed as its sign and magnitude. |
| `FixedPoint.FixedPointText` | crates/cast/src/lib.rs:1263-1284 | For every integer from -2^255 up to 2^256 and every count of decimals, given as text: the printed text denotes exactly the integer divided by that power of ten. |
| `FixedPoint.FixedPointIsExact` | crates/cast/src/lib.rs:1274-1283 | Sign, at least one whole digit, a dot and exactly the given number of fractional digits; without the dot the text denotes the magnitude. |
| `ChunkedLogs.ResultIsWhatArrives` | crates/cast/src/lib.rs:925-952 | For every pattern of failures the result is, block by block and in order, the logs of exactly the blocks whose chunk request or own request succeeds. |
| `ChunkedLogs.SinglesSuffice` | crates/cast/src/lib.rs:932-946 | If single-block requests succeed, the result is the block-by-block logs of the half-open range, whatever chunks fail. |
| `ChunkedLogs.ArrivedIsSubsequence` | crates/cast/src/lib.rs:932-946 | Whatever fails, the result is a subsequence of the range's logs. |
| `ChunkedLogs.FallbackIsDirectIff` | crates/cast/src/lib.rs:914-952 | For every pattern of failures, the fallback equals the direct request if and only if the last block has no logs and neither has any block of which both the chunk's request and its own fail. |
| `ChunkedLogs.AsMuchIffNothingLost` | crates/cast/src/lib.rs:932-946 | What arrives is never more than the range's logs, and as much exactly when every block arrives or has none. |
| `ChunkedLogs.FailingBlockIsLost` | crates/cast/src/lib.rs:939-946 | A range whose last block is empty and whose first block is lost because its own request fails too. |
| `ChunkedLogs.ChunksTile` | crates/cast/src/lib.rs:919-923 | Chunk ranges are consecutive, nonempty, at most the chunk size, and end exactly at the range's end. |
| `ChunkedLogs.InExactlyOnePiece` | crates/cast/src/lib.rs:919-923 | So every block of the range is in exactly one chunk, and no other block in any. |
| `ChunkedLogs.SortKeepsSorted` | crates/cast/src/lib.rs:954-955 | The stable sort leaves results that arrive in chunk order as they are. |
| `ChunkedLogs.FetchChunk` | crates/cast/src/lib.rs:926-948 | One chunk request, or else all single blocks that succeed. |
| `ChunkedLogs.FetchSingles` | crates/cast/src/lib.rs:936-946 | The loop keeps the logs of exactly the single blocks that succeed, in order. |
| `ChunkedLogs.FlattenLogs` | crates/cast/src/lib.rs:957-960 | The loop concatenates the parts in order. |
| `ChunkedLogs.MakeRanges` | crates/cast/src/lib.rs:919-923 | The loop with its 64-bit additions gives the chunk ranges whenever the end of no chunk overflows. |
| `ChunkedLogs.GetLogsChunkedConcurrent` | crates/cast/src/lib.rs:901-963 | Partition, requests, sort and flattening together return exactly the logs of the blocks that arrive; without a numeric range the request is passed on. |

## Left out

- Recorder runs in which a hook leaves early: mocked calls, `expectRevert` and `assumeNoRevert`, and intercepted creates return before the push or the pop.
- The end of the root call, which the end hooks do not record, and runs that are not properly nested.
- Storage that cheatcodes such as `store` and `copyStorage` change while recording: no access is recorded for it, so replay and storage differ there.
- Record fields that only carry data along: chain info, value, call data, deployed code, labels, contract names and slot decoding; failing database reads, which the recorder replaces by zero; 256-bit overflow of a self-destruct beneficiary's balance.
- `StateDiffSummary.GetRecordedStateDiffs`: balances and nonces are summed over all records, reverted ones too, because the code does not look at the flag there; the net-change theorems are about storage slots.
- Broadcast runs in which a frame around a broadcast reverts: that undoes the EVM's own nonce increment for a create, but not the one the call hook makes directly; and creates executed by the origin's own delegated code.
- `broadcastRawTransaction`, which queues a transaction signed elsewhere, at whatever nonce that names.
- Broadcasts in isolation mode as runs (the hook itself is modelled), prank checks, 64-bit nonce overflow and failing account loads; wallets and signing, where a signer is its address.
- `Broadcast.Broadcaster.OnCreate`: models the hook alone; the EVM's own nonce increment when the frame is entered is part of the `CreateEvent` of a run.
- A reverted frame that stored to a slot which `copyStorage` then removed from the account: undoing writes the old value back, where the journal's own lookup fails.
- Gas snapshots and `lastCallGas`.
- JSON text beyond what printing produces: escapes, white space and number syntax; `RlpText.Read` reads printed items.
- The reader of scalars in `StructParsing`, and the JSON reader in `JsonUpsert.UpsertJsonValue`, are parameters.
- A mining task that fails, which panics; fee history and filter eviction; wakers, so no liveness.
- Changes of block storage between a notification and its consumption: lookups are fixed during a run.
- `LogDelivery.LogIndexIsPosition`: for blocks of up to 2^32 logs, as many as the 32-bit index tells apart.
- Decimal counts beyond the address width, and the width limit of Rust's formatter; `to_base` and bit shifts, which only combine what `Radix` proves.
- `ChunkedLogs.GetLogsChunkedConcurrent`: for chunk sizes of at least one and ranges in which every chunk's start plus the size stays within 64 bits; beyond, the addition overflows, and a step of zero panics.
- Concurrency of the chunk requests: the buffered stream yields results in order, and the model issues the requests in that order.
- RPC providers, servers, the EVM interpreter and journal, the database, hashing and key recovery.
- The rest of the repository: forge, chisel, the script runner, verification, configuration, ABI encoding and formatting.
