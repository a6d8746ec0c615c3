# Verification of the campaign harness

This project models the parts of the repository that meter, judge and repair long model campaigns, and
proves what they promise. The protocols are state machines over any interleaving of their steps; the
objects that own their state are classes whose methods give the whole new state as a function of the old.
`dafny verify dfyconfig.toml` checks everything.

| component | files | source |
|---|---|---|
| Credential relay and its verdict | RelayProtocol, RelayInvariant, RelayVerdict, RelaySpending, CredentialRelay | credential_relay.py, run_bounded_b_pair.py |
| Streaming usage capture | SseEvents, SseStream, SseCapture, SsePeak | runtime_endurance_incremental_runner.py |
| Reference resolver | ResolverGraph, Resolver | package_endurance/verify.py |
| Backup oracle | MemberNames, AuthorityRows, OracleDocuments, BackupOracle, CodecInstance, BackupTheorems, BackupLimits, BackupExact, BackupChecks, BackupCut, BackupValidator | package_endurance_v5/oracle.py |
| Continuous load | LoadAuthority, ContinuousLoad, QuiesceGate, FailureLedger, Capacity | continuous_load.py, workload.py |
| Budget ledgers | LedgerModel, LedgerBooks, GuardedLedger, BudgetLedger | runtime_endurance_incremental_runner.py, package_endurance_v5/run.py, package_endurance/limits.py |
| Usage reconciliation | ReconcilePlan, ReconcileRuns, ReconcileJournal, ReconcileRecovery, ReconcileFiles | package_endurance_v4/reconcile_usage.py |
| Process tree cleanup | JobTree, HandleRegistry, HandleOwners | runner_process_tree.py |
| Delta coalescer | DeltaCoalescer | DeltaCoalescer.cs |
| Tool ids and names | ToolIds, ToolIdRepair, Base64Url, ToolAlias, ToolRestore | credential_relay.py |
| Chunked search | NeedleSearch | scan_trial_evidence.py, check_credential_evidence.py |

## Where the code and its descriptions differ

The model follows the code. Each difference has a concrete witness and an exact condition.

- The relay verdict is described as "every attempt settled or used its exact 408 recovery". The code also
  refuses more than one unresolved attempt: two recovered 408s meet the description and are refused.
- The ledgers that declare one token per wire byte plus 8192 charge the base estimate of a quarter token per
  byte plus 256. With usage inside what was declared they keep their cap if and only if input has no price;
  otherwise a run passes it for every request size, at most by the gap of one request, which is attained.
- The archive validator accepts more than cuts: extra self-hashed objects and manifests, manifests under any
  five-character suffix, current rows that do not repeat the last receipt of their identity, receipts out of
  query order, rows with columns or values no table has, and descriptors spelled otherwise than a cut writes
  them, such as a schema version of 2.0. Acceptance means being a cut exactly when none of these occurs.
- The capture's buffer high-water mark depends on the chunking exactly when some overlong line, filling the
  buffer on top of the data already joined, could exceed the mark left by the lines that fit.
- Section 9.2.6 of the WHATWG HTML standard discards the group of lines that no blank line ends. The capture
  dispatches it: one more event exactly when that group has data or is oversized.
- Synthetic tool ids avoid the provider ids the first pass collects, which leaves out ids on deltas without a
  usable index. Every outcome avoids those too if and only if none of them is an id that a group in need could
  draw.
- Writers of one round never share a scope, which the schedule gives for at most eight writers and not for
  nine. An install that commits but is reported as failed wedges its scope for the rest of the window.
- A reconciliation whose first writing run dies between creating its journal and the prepared receipt can
  never be completed; after any other crashes it can.

## How the model abstracts

- SHA-256 does not collide: a hashed body stands for its digest, or the hash is an injective parameter.
- JSON values are one datatype, with integers and floats apart as in Python. The canonical encoder, the decoder
  and the hash are parameters; a result requires of them only that encodings decode back, or that the hash does
  not collide, or both. `CodecInstance` builds a codec that does both.
- Money is an exact real or, in the relay, an integer number of nano-dollars; clocks are integers read at each
  use, monotone where the property needs it; a random token is any 24 hexadecimal digits that give a new id.
- A lock block is one atomic step; what a handler writes outside the lock is a step of its own.

## Model

| member | source | states |
|---|---|---|
| RelayInvariant.StepKeeps | scripts/terminal_bench_pilot/credential_relay.py:449-735 | Every lock block and every write outside it keeps the whole relay invariant: totals are sums over attempts, retries are backed by grants, send times are spaced |
| RelayInvariant.RunKeeps | scripts/terminal_bench_pilot/credential_relay.py:449-735 | The invariant holds in every state of every interleaving of any number of handlers |
| RelayVerdict.SettledExactly | scripts/terminal_bench_pilot/run_bounded_b_pair.py:375-392 | In every run the verdict holds if and only if no call is active and either nothing is reserved or a single attempt is unresolved, it was a pre-response 408, a completed retry carried the same body, and the reserved totals are that attempt's |
| RelayVerdict.VerdictVersusDescription | scripts/terminal_bench_pilot/run_bounded_b_pair.py:375-376 | The verdict is what its docstring says together with "at most one attempt unresolved", which the docstring leaves out |
| RelayVerdict.TwoRecoveriesAreRefused | scripts/terminal_bench_pilot/run_bounded_b_pair.py:387-392 | A concrete run with two recovered 408s meets the docstring and is refused |
| RelayVerdict.RetryRepeatsUnresolved | scripts/terminal_bench_pilot/credential_relay.py:469-498 | A completed retry always carries the body of some granted 408, and that attempt never completes |
| RelayVerdict.NothingReserved | scripts/terminal_bench_pilot/credential_relay.py:645-665 | With no active call, nothing is reserved exactly when every attempt completed |
| RelayVerdict.QuiescentRecords | scripts/terminal_bench_pilot/credential_relay.py:665-688 | With no active call every record is final: completed exactly when its usage was settled, never for a granted 408 |
| RelaySpending.Conservation | scripts/terminal_bench_pilot/credential_relay.py:501-511 | Reserved tokens are the sum of unreleased reservations, committed and cached tokens the sums over settled attempts, active calls the number of handlers inside |
| RelaySpending.RetriesWithinGrants | scripts/terminal_bench_pilot/credential_relay.py:706-717 | Retries taken plus a pending grant never exceed the granted 408s, which are counted by retries used and stay within the maximum |
| RelaySpending.HonestRunsStayCapped | scripts/terminal_bench_pilot/credential_relay.py:450-468 | While no usage exceeded its reservation, committed plus reserved input, output and peak cost stay within every cap |
| RelaySpending.NothingAdmittedOverCap | scripts/terminal_bench_pilot/credential_relay.py:483-493 | Whatever the provider reports, once committed usage passes a cap every further request is refused |
| RelaySpending.SendTimesSpaced | scripts/terminal_bench_pilot/credential_relay.py:499-500 | Any two scheduled send times are at least one interval apart |
| RelaySpending.StoppedForever | scripts/terminal_bench_pilot/credential_relay.py:476-493 | A close, an unknown usage gap and an exceeded budget each end admission for the rest of the run |
| RelaySpending.FinalAfterClose | scripts/terminal_bench_pilot/credential_relay.py:746-773 | After close and the last leaving call, only refusal counts can change; the verdict cannot |
| RelaySpending.ReceiptTotalsItsAttempts | scripts/terminal_bench_pilot/credential_relay.py:775-788 | The receipt's two cost totals are the sums of the costs recorded per attempt |
| CredentialRelay.CredentialRelay.AdmitLocked | scripts/terminal_bench_pilot/credential_relay.py:449-511 | The admission block refuses with the protocol's reason or records the attempt; new state given in full |
| CredentialRelay.CredentialRelay.RecordAttempt | scripts/terminal_bench_pilot/credential_relay.py:495-511 | Recording holds both reservations, takes the next send slot and consumes a matching retry grant |
| CredentialRelay.CredentialRelay.FinishLocked | scripts/terminal_bench_pilot/credential_relay.py:641-688 | A finished response settles valid usage and otherwise freezes the relay |
| CredentialRelay.CredentialRelay.SettleLocked | scripts/terminal_bench_pilot/credential_relay.py:645-664 | Settlement moves the reservation into committed totals, marks a recovery and recomputes the exceeded flag |
| CredentialRelay.CredentialRelay.Grant408Locked | scripts/terminal_bench_pilot/credential_relay.py:706-721 | A pre-response 408 takes one retry grant for its body, or freezes the relay when none is left |
| CredentialRelay.CredentialRelay.FailLocked | scripts/terminal_bench_pilot/credential_relay.py:718-721 | Any other failure leaves the reservation held and freezes admission |
| CredentialRelay.CredentialRelay.MarkUnsettledLocked | scripts/terminal_bench_pilot/credential_relay.py:757-773 | Attempts still in flight at close are marked and the relay frozen; nothing happens when no call is active |
| CredentialRelay.CredentialRelay.UsageSettledNow | scripts/terminal_bench_pilot/run_bounded_b_pair.py:375-392 | The verdict computed from the fields is the protocol's verdict |
| SseEvents.ParseUsage | scripts/runtime_endurance_incremental_runner.py:210-225 | Strict usage is reported exactly when all three counts are present, non-negative, and cached input is inside the input |
| SseStream.StreamingIsWhole | scripts/runtime_endurance_incremental_runner.py:259-339 | The bounded incremental parser computes what splitting the whole string into lines and blank-line groups and joining the data fields gives, the trailing event at end of input included |
| SseStream.BuffersBounded | scripts/runtime_endurance_incremental_runner.py:267-295 | The line and data buffers each stay within the event bound |
| SseCapture.AnyChunkingIsWhole | scripts/runtime_endurance_incremental_runner.py:259-339 | Every chunking of a byte string gives the same tally, the whole parse of that string |
| SseCapture.DropsExactly | scripts/runtime_endurance_incremental_runner.py:267-269 | A line is dropped exactly when some raw line is longer than the bound |
| SsePeak.PeakIgnoresChunkingExactly | scripts/runtime_endurance_incremental_runner.py:265-272 | All chunkings of a byte string leave the same high-water mark if and only if no overlong line, filling the buffer on top of the data joined before it, could exceed the mark left by the lines that fit |
| SsePeak.PeakRange | scripts/runtime_endurance_incremental_runner.py:265-272 | One chunk leaves the least mark of all chunkings, that of the lines that fit; single bytes leave the greatest |
| SsePeak.OneOverlongLine | scripts/runtime_endurance_incremental_runner.py:267-272 | A single overlong line leaves no mark in one chunk and a full buffer byte by byte, for every bound |
| SseStream.UnterminatedDataIsDispatched | scripts/runtime_endurance_incremental_runner.py:333-338 | A stream of one data line without a newline: the capture dispatches it, the standard nothing |
| SseStream.TrailingEventExactly | scripts/runtime_endurance_incremental_runner.py:333-338 | The capture dispatches what discarding the unterminated last group would, and one event more exactly when that group has data or is oversized |
| SseCapture.SseUsageCapture.Feed | scripts/runtime_endurance_incremental_runner.py:259-276 | A chunk is appended to what was fed unless the capture is finished, in which case it is refused; the high-water mark follows |
| SseCapture.SseUsageCapture.Result | scripts/runtime_endurance_incremental_runner.py:333-339 | The reported usage and all flags are those of the whole parse of everything fed |
| SseCapture.SseUsageCapture.Complete | scripts/runtime_endurance_incremental_runner.py:341-345 | Complete says exactly that the whole stream ended in one clean terminal |
| ResolverGraph.Search.Solve | scripts/package_endurance/verify.py:32-44 | The depth-first search succeeds exactly when every root and reachable bound is met and the reachable selected graph is acyclic; active is then exactly the reachable set |
| ResolverGraph.Search.Visit | scripts/package_endurance/verify.py:33-43 | A visit either activates its name with bounds met, or refutes the selection; it terminates by the names not being visited |
| ResolverGraph.RepeatIsCycle | scripts/package_endurance/verify.py:37-37 | Meeting a name that is being visited means a reachable cycle |
| ResolverGraph.OrderProves | scripts/package_endurance/verify.py:41-42 | The activation order is a topological order, which proves the selection consistent and covers all that is reachable |
| Resolver.ProductExact | scripts/package_endurance/verify.py:30-31 | The nested product holds exactly the choices of one row per name |
| Resolver.AllSolutions | scripts/package_endurance/verify.py:29-45 | The collected solutions are exactly the listings of consistent selections |
| Resolver.ReferenceResolve | scripts/package_endurance/verify.py:25-47 | The answer is a solution with the greatest key among all solutions; the resolver gives up exactly when no selection is consistent, and refuses more than seven names |
| Resolver.KeyTotal | scripts/package_endurance/verify.py:47-47 | Any two solutions are comparable by the tuple of their items |
| Resolver.KeyTransitive | scripts/package_endurance/verify.py:47-47 | and the comparison is transitive, so a maximum exists |
| BackupChecks.CheckGenerations | scripts/package_endurance_v5/oracle.py:168-196 | The history check passes exactly when every scope's generations are some order of 1..N and its one current row names N |
| BackupChecks.CheckIdentities | scripts/package_endurance_v5/oracle.py:199-207 | Passes exactly when every outbox and journal row has a usable identity and none repeats |
| BackupChecks.CheckJournal | scripts/package_endurance_v5/oracle.py:210-225 | Passes exactly when every digest a journal row names is in the cut |
| BackupCut.RepositoryCut | scripts/package_endurance_v5/oracle.py:240-306 | On rows as the queries return them, succeeds exactly on coherent authority points, and returns exactly the member map of that point |
| BackupCut.CheckCurrent | scripts/package_endurance_v5/oracle.py:257-262 | Passes exactly when every current row repeats the last receipt of its identity |
| BackupValidator.ValidateMembers | scripts/package_endurance_v5/oracle.py:309-395 | Returns the descriptor of an accepted map, and nothing for any other map |
| BackupValidator.CheckBounds | scripts/package_endurance_v5/oracle.py:317-331 | Member count, member sizes, total size and layout are checked as stated |
| BackupValidator.CollectFiles | scripts/package_endurance_v5/oracle.py:348-366 | Every manifest and object is kept under its own digest, or the map is refused |
| BackupTheorems.CutAccepted | scripts/package_endurance_v5/oracle.py:297-306 | Every in-bounds cut of plainly named scopes with text outbox bodies is accepted |
| BackupTheorems.RemovalRejected | scripts/package_endurance_v5/oracle.py:367-395 | Removing any one member of a cut makes it rejected |
| BackupTheorems.ChangeRejected | scripts/package_endurance_v5/oracle.py:351-393 | Changing any member but the descriptor makes it rejected |
| BackupTheorems.SameDescriptorSameClosure | scripts/package_endurance_v5/oracle.py:309-395 | Two accepted maps with the same descriptor bytes agree on every row, pointer, receipt manifest and package they refer to |
| BackupExact.AcceptedIsCutExactly | scripts/package_endurance_v5/oracle.py:133-395 | An accepted map is a cut of some repository if and only if its manifests are stored under their own names and named by receipts, its objects named by those manifests, its current rows repeat the last receipt of their identity, its rows are what the queries return (their columns, storable values, in order) and its descriptor is spelled as a cut writes it |
| BackupLimits.ExtraObjectAccepted | scripts/package_endurance_v5/oracle.py:362-366 | An accepted map stays accepted when any object is added under its own hash |
| BackupLimits.ExtraObjectIsNoCut | scripts/package_endurance_v5/oracle.py:300-300 | and that map is the cut of no repository |
| BackupLimits.OddSuffixAccepted | scripts/package_endurance_v5/oracle.py:353-356 | A manifest stays accepted under any five characters in place of its suffix |
| BackupLimits.OddSuffixIsNoCut | scripts/package_endurance_v5/oracle.py:299-299 | and no cut names a manifest so |
| BackupLimits.CurrentRowUnchecked | scripts/package_endurance_v5/oracle.py:343-347 | A current row may carry any manifest, further fields, or the key of an older receipt, and the map is still accepted |
| BackupLimits.StrayCurrentIsNoCut | scripts/package_endurance_v5/oracle.py:257-262 | A map whose current row does not repeat the last receipt of its identity is no cut |
| BackupLimits.PermutedReceiptsAccepted | scripts/package_endurance_v5/oracle.py:309-395 | The receipts of an accepted descriptor may be put in any order |
| BackupLimits.SwappedReceipts | scripts/package_endurance_v5/oracle.py:147-162 | Exchanging two different receipts of a descriptor in query order is accepted and is the cut of no repository |
| BackupLimits.RewrittenRow | scripts/package_endurance_v5/oracle.py:159-161 | A journal row with any further field, or any value in a field the oracle does not read, is accepted; the map is no cut when the field is no column or no column can hold the value |
| BackupLimits.ExtraManifest | scripts/package_endurance_v5/oracle.py:351-361 | A canonical manifest stored under its own hash that no receipt names is accepted when its packages are there, and the map is the cut of no repository |
| BackupLimits.RespelledDescriptor | scripts/package_endurance_v5/oracle.py:330-336 | Any canonical descriptor member that reads as the same rows is accepted, and is no cut unless spelled as a cut writes it |
| BackupLimits.LooseReads | scripts/package_endurance_v5/oracle.py:333-334 | A schema version of 2.0 is such a spelling for every descriptor |
| OracleDocuments.DescriptorReads | scripts/package_endurance_v5/oracle.py:330-336 | A written descriptor reads back as itself |
| OracleDocuments.CurrentWrites | scripts/package_endurance_v5/oracle.py:149-156 | A current row that can be read is written back unchanged, whatever fields it has beside the five |
| CodecInstance.CodecExists | scripts/package_endurance_v5/oracle.py:44-58 | Some codec round-trips every JSON value and has a collision-free hash: a prefix code built and inverted here |
| BackupLimits.OddRowsAreNoCut | scripts/package_endurance_v5/oracle.py:133-165 | No cut has a descriptor whose rows the queries cannot return |
| AuthorityRows.SwapLeavesOrder | scripts/package_endurance_v5/oracle.py:147-162 | The query order is total on text identities, so exchanging two different ones always leaves it |
| MemberNames.RowNamesInjective | scripts/package_endurance_v5/oracle.py:301-304 | Six-digit row names are distinct for distinct rows, also past six digits |
| MemberNames.KindsExclude | scripts/package_endurance_v5/oracle.py:298-305 | The six kinds of member names exclude each other |
| LoadAuthority.ScopeOfSlots | scripts/package_endurance_v5/workload.py:60-61 | Two slots share a scope exactly when they agree modulo 8 and on divisibility by 3 |
| LoadAuthority.DisjointUpToEight | scripts/package_endurance_v5/workload.py:60-61 | Rounds of W consecutive slots have distinct scopes for every start if and only if W is at most 8 |
| LoadAuthority.SlotOfKey | scripts/package_endurance_v5/continuous_load.py:105-106 | A slot's key reads back as that slot |
| LoadAuthority.LaterKeysUnused | scripts/package_endurance_v5/continuous_load.py:105-108 | No key beyond the greatest stored slot is in the database, so a resumed window replays none |
| LoadAuthority.CommitKeeps | scripts/package_endurance_v5/oracle.py:168-196 | A committed install moves its own scope one generation on, leaves the others, and keeps the history check true |
| ContinuousLoad.StepKeeps | scripts/package_endurance_v5/continuous_load.py:566-605 | Every step of any writer or of the coordinator keeps the load invariant |
| ContinuousLoad.HistoriesStayValid | scripts/package_endurance_v5/oracle.py:168-196 | In every reachable state the oracle's history check accepts, and no identity is installed twice |
| ContinuousLoad.NeverStale | scripts/package_endurance_v5/continuous_load.py:579-591 | With at most eight writers, the generation a writer is about to send is current exactly when no earlier answer of that scope was lost |
| ContinuousLoad.NoSharedScope | scripts/package_endurance_v5/continuous_load.py:575-584 | With at most eight writers no two installs in flight share a scope |
| ContinuousLoad.NineWritersCollide | scripts/package_endurance_v5/continuous_load.py:575-584 | With nine, a round from slot 2 puts two installs of one scope in flight |
| ContinuousLoad.QuietBetweenRounds | scripts/package_endurance_v5/continuous_load.py:871-888 | While the coordinator archives between rounds, every writer waits at the start barrier or is gone |
| ContinuousLoad.LostAnswerWedges | scripts/package_endurance_v5/continuous_load.py:586-591 | One commit reported as a failure wedges its scope: no later install there ever commits |
| ContinuousLoad.LostAnswerHappens | scripts/package_endurance_v5/continuous_load.py:566-605 | Every start reaches such a state by one committed install reported as failed |
| ContinuousLoad.SlotAllocator.Take | scripts/package_endurance_v5/continuous_load.py:163-170 | Hands out consecutive slots up to the cap, each once |
| QuiesceGate.StepKeeps | scripts/package_endurance_v5/continuous_load.py:118-147 | The counter equals the executors inside, and while a window is announced it never rises |
| QuiesceGate.WindowIsExclusive | scripts/package_endurance_v5/continuous_load.py:124-147 | While the exclusive body runs no executor is inside |
| QuiesceGate.ExclusiveOnlyDrains | scripts/package_endurance_v5/continuous_load.py:136-147 | From announcement to close the counter only falls |
| QuiesceGate.CutWindowIsStable | scripts/package_endurance_v5/continuous_load.py:676-681 | The fingerprints before and after a backup are always equal, so the unstable branch is never taken |
| QuiesceGate.DrainCompletes | scripts/package_endurance_v5/continuous_load.py:138-141 | An announced window opens once the executors inside leave |
| QuiesceGate.QuiesceGate.TryEnter | scripts/package_endurance_v5/continuous_load.py:125-128 | Entry succeeds exactly when no window is announced, and counts |
| QuiesceGate.QuiesceGate.Drained | scripts/package_endurance_v5/continuous_load.py:140-141 | The window opens exactly when the counter is zero |
| LedgerBooks.TotalsAreSums | scripts/runtime_endurance_incremental_runner.py:615-698 | Over every run of reservations, settlements, forced settlements and reloads, reserved, committed and unknown money are the sums over attempts and ids count attempts |
| LedgerBooks.ClampIdle | scripts/runtime_endurance_incremental_runner.py:666-666 | Releasing an open reservation never goes below zero, so the clamp never acts |
| LedgerBooks.SettleAtKeeps | scripts/runtime_endurance_incremental_runner.py:660-688 | A settlement changes occupied money by exactly what is now charged minus what was reserved, and no other attempt |
| LedgerBooks.SettleFinds | scripts/runtime_endurance_incremental_runner.py:663-665 | An id settles its own open attempt; any other id changes nothing |
| LedgerBooks.SettledOnce | scripts/runtime_endurance_incremental_runner.py:664-665 | Attempts are never removed or renamed, and each settles at most once |
| LedgerBooks.StoppedForGood | scripts/runtime_endurance_incremental_runner.py:626-627 | Once stopped by the cap, nothing is admitted again, not even after a reload with a larger cap |
| LedgerBooks.WithinHighestCap | scripts/runtime_endurance_incremental_runner.py:626-627 | If no settlement costs more than its reservation, occupied money never exceeds the highest cap the run has seen |
| LedgerBooks.WithinEstimateIsHonest | scripts/runtime_endurance_incremental_runner.py:147-172 | Usage inside the estimate's own assumption costs no more than the estimate |
| LedgerBooks.ForceKeeps | scripts/runtime_endurance_incremental_runner.py:690-698 | Forced settlement turns exactly the open reservations of the segment into unknown ones and keeps occupied money |
| LedgerBooks.ReloadKeeps | scripts/runtime_endurance_incremental_runner.py:538-538 | Reloading computes the same next id |
| LedgerModel.CostWithin | scripts/runtime_endurance_incremental_runner.py:147-153 | Bounded usage costs no more than its bounds priced as uncached input |
| BudgetLedger.ReopeningContinues | scripts/runtime_endurance_incremental_runner.py:574-597 | The file alone is enough: reopening it continues the same books |
| BudgetLedger.BudgetLedger.Load | scripts/runtime_endurance_incremental_runner.py:574-597 | Opens the saved books or new ones, with the given cap and prices, and saves at once |
| BudgetLedger.BudgetLedger.Reserve | scripts/runtime_endurance_incremental_runner.py:615-658 | Returns an id exactly for an admitted request; new books given in full, and on disk |
| BudgetLedger.BudgetLedger.Settle | scripts/runtime_endurance_incremental_runner.py:660-688 | The books after settling, on disk; unchanged unless the id names an open attempt |
| BudgetLedger.BudgetLedger.ForceSettleSegment | scripts/runtime_endurance_incremental_runner.py:690-698 | Settles and returns exactly the ids open in the segment, and leaves none open there |
| BudgetLedger.BudgetLedger.GuardedReserve | scripts/package_endurance_v5/run.py:40-61 | The guarded reservation, on disk; an id is returned only past the guard and the cap |
| GuardedLedger.GuardedRunKeeps | scripts/package_endurance_v5/run.py:42-57 | At most one attempt is ever outstanding; with honest usage committed tokens and admissions stay within the campaign caps |
| GuardedLedger.UnknownEndsAdmission | scripts/package_endurance/limits.py:68-69 | After one attempt of unknown usage nothing is admitted again |
| GuardedLedger.BaseChargesDeclared | scripts/runtime_endurance_incremental_runner.py:554-563 | The base ledger charges exactly what it declares |
| GuardedLedger.WireLedgerChargesLess | scripts/runtime_endurance_incremental_runner.py:622-622 | The byte-per-token ledgers charge less than they declare if and only if input has a price, by a stated gap |
| GuardedLedger.OvershootIsBounded | scripts/package_endurance_v5/run.py:32-38 | With usage inside the declared bound, occupied money passes the highest cap by at most one request's gap |
| GuardedLedger.OvershootIsAttained | scripts/runtime_endurance_incremental_runner.py:622-622 | and one request of any size attains it: charged exactly its cap and settled exactly at what was declared, it ends a whole gap above |
| GuardedLedger.CapKeptExactly | scripts/runtime_endurance_incremental_runner.py:516-519 | Settling inside the declared bound keeps every run of a new ledger within its highest cap if and only if input has no price; otherwise a run passes it for every request size |
| GuardedLedger.DefaultPricesPassTheCap | scripts/runtime_endurance_incremental_runner.py:622-622 | At the default prices a request of 4096 bytes with the default output bound ends above its cap, by a stated amount |
| ReconcilePlan.PlanSettlesCompleteCapture | scripts/package_endurance_v4/reconcile_usage.py:68-84 | A plan over the capture's own results settles exactly the usage of a complete capture, however the response is read in pieces |
| ReconcilePlan.IncompleteCaptureRefused | scripts/package_endurance_v4/reconcile_usage.py:68-84 | No plan is built from an incomplete capture, whatever else holds |
| ReconcileRuns.PlanBinds | scripts/package_endurance_v4/reconcile_usage.py:93-154 | A plan that builds targets an unknown attempt of the current ledger and settles it at no more than it held |
| ReconcileRuns.RunDoes | scripts/package_endurance_v4/reconcile_usage.py:178-229 | One run, however it ends, touches its own journal only and leaves the ledger as it was or reconciled by its plan |
| ReconcileRuns.MovesAtMostOnce | scripts/package_endurance_v4/reconcile_usage.py:178-229 | Over any sequence of runs crashing between any two writes, each attempt moves from unknown to committed at most once, the unknown total falls by what those attempts held, the committed total rises by what they settled at, and their sum never rises |
| ReconcileRuns.SettledRowsStay | scripts/package_endurance_v4/reconcile_usage.py:94-95 | A reconciled attempt is never touched again, whatever plans follow |
| ReconcileRecovery.CrashesThenRerun | scripts/package_endurance_v4/reconcile_usage.py:178-229 | After any sequence of runs dying after any number of writes, one more run ends applied with the uninterrupted run's ledger exactly when the first run that wrote did not die between creating the journal and the prepared receipt; otherwise it is refused and the ledger was never touched |
| ReconcileJournal.RunsKeep | scripts/package_endurance_v4/reconcile_usage.py:165-168 | Every reconciled row records its plan with an intact journal, every receipt comes with its plan and backups, and every applied receipt has its row |
| ReconcileJournal.ReplayIsDone | scripts/package_endurance_v4/reconcile_usage.py:186-198 | A plan already in the ledger replays as done and changes no money |
| ReconcileJournal.GapIsForGood | scripts/package_endurance_v4/reconcile_usage.py:202-216 | A journal left without a receipt refuses that plan for ever, whatever else runs |
| ReconcileFiles.StageFiles.ApplyPlan | scripts/package_endurance_v4/reconcile_usage.py:178-229 | The step-by-step run, dying after any number of writes, leaves exactly the stage and outcome of the specification |
| ReconcileFiles.StageFiles.WriteAll | scripts/package_endurance_v4/reconcile_usage.py:206-216 | Writes happen in order and a crash leaves a prefix of them |
| JobTree.StepKeeps | scripts/runner_process_tree.py:233-281 | Every spawn, exit, capture and cleanup step keeps: identities are among the joined processes and totals count them |
| JobTree.ConfirmedMeansExited | scripts/runner_process_tree.py:429-452 | When the tree is confirmed, every process that ever joined the Job has exited |
| JobTree.ConfirmedIsFinal | scripts/runner_process_tree.py:450-452 | and no process can join afterwards |
| JobTree.CountsAgreeExactly | scripts/runner_process_tree.py:430-434 | With totals read and retained handles waited for, the tree can be confirmed exactly when the retained identities are all the processes that ever joined |
| JobTree.NoActiveIsNotExited | scripts/runner_process_tree.py:441-449 | An active count of zero alone proves nothing: a concrete run has it with a process not yet exited |
| HandleOwners.EveryHandleHasOneOwner | scripts/runner_process_tree.py:133-320 | In every run of captures, failures, registrations and closes, every handle ever opened is in exactly one of registry, capture, closed and failed to close, and the registry holds exactly the identities of the tree not yet released |
| HandleOwners.RunsTheTree | scripts/runner_process_tree.py:133-320 | Such a run is a run of the process tree, so a confirmation in it means the same |
| HandleOwners.TrackSettles | scripts/runner_process_tree.py:133-164 | What Track leaves is one settlement of the capture: new entries come from its hand, everything else is closed or failed to close |
| HandleRegistry.HandleRegistry.Track | scripts/runner_process_tree.py:133-164 | Every handle ends in exactly one place, also when a lookup fails or the registry is full; old identities keep their handle, and on success every member is known |
| HandleRegistry.HandleRegistry.CloseRest | scripts/runner_process_tree.py:158-164 | Exactly the handles whose close succeeds are closed, the others counted as failed |
| HandleRegistry.HandleRegistry.CloseMembers | scripts/runner_process_tree.py:295-320 | Exactly the handles that did not close stay in the registry for a retry |
| DeltaCoalescer.StepKeeps | clients/dotnet/Agent.Client/DeltaCoalescer.cs:32-135 | Every append, flush, dispose, timer fire and callback keeps the coalescer invariant |
| DeltaCoalescer.NothingLost | clients/dotnet/Agent.Client/DeltaCoalescer.cs:32-57 | Flushed text followed by pending text is the appended text in order; less than a budget waits, and no flush is empty |
| DeltaCoalescer.WaitingTextHasATimer | clients/dotnet/Agent.Client/DeltaCoalescer.cs:73-99 | Unless Dispose took it, waiting text has a timer for exactly last flush plus interval, or a callback on its way |
| DeltaCoalescer.DueCallbacksDrain | clients/dotnet/Agent.Client/DeltaCoalescer.cs:101-121 | Past the deadline, at most one fire and one callback leave nothing waiting |
| DeltaCoalescer.EarlyCallbackKeepsWaiting | clients/dotnet/Agent.Client/DeltaCoalescer.cs:109-118 | An early or stale callback re-arms for the same deadline and keeps the text |
| DeltaCoalescer.OrphanWaits | clients/dotnet/Agent.Client/DeltaCoalescer.cs:59-69 | Text whose timer Dispose took is kept and not re-armed until a flush or an append |
| DeltaCoalescer.DeltaCoalescer.Append | clients/dotnet/Agent.Client/DeltaCoalescer.cs:32-48 | The new buffer: flushed at the budget, otherwise armed or flushed when overdue |
| DeltaCoalescer.DeltaCoalescer.FlushIfDue | clients/dotnet/Agent.Client/DeltaCoalescer.cs:101-121 | The new buffer after a callback, with both clock readings |
| ToolIdRepair.RepairMissingToolIds | scripts/terminal_bench_pilot/credential_relay.py:206-268 | Writes distinct fresh ids, none of them a provider id, at the first delta of exactly the groups that have no id, and counts them |
| ToolIds.OneIdPerGroup | scripts/terminal_bench_pilot/credential_relay.py:247-259 | A repaired group has its id at its first delta only; a group with a provider or malformed id is untouched |
| ToolIds.RepairKeepsShape | scripts/terminal_bench_pilot/credential_relay.py:261-267 | Line count, lines that are not events and everything but ids are kept |
| ToolIds.NoNewClash | scripts/terminal_bench_pilot/credential_relay.py:251-256 | Ids of different groups coincide after the repair only where the provider had repeated one |
| ToolIdRepair.AvoidsEveryIdExactly | scripts/terminal_bench_pilot/credential_relay.py:229-256 | Every possible outcome avoids every id in the response if and only if no delta without a usable index carries an id that a group in need could draw |
| ToolIdRepair.UnseenIdCollides | scripts/terminal_bench_pilot/credential_relay.py:229-242 | A concrete response where a drawn id may equal one on an unusable delta |
| ToolIdRepair.NoClashAnywhere | scripts/terminal_bench_pilot/credential_relay.py:251-256 | Without such a delta, ids of any two deltas of different groups, or of none, coincide only where the provider had repeated one |
| ToolIds.TwiceIsOnce | scripts/terminal_bench_pilot/credential_relay.py:206-268 | Repairing the repaired lines writes no id |
| ToolIdRepair.SurveyResponse | scripts/terminal_bench_pilot/credential_relay.py:213-245 | The first pass finds every group's first delta, its ids and its malformed ids, over the whole response |
| Base64Url.RoundTrip | scripts/terminal_bench_pilot/credential_relay.py:34-34 | Unpadded base64url decodes back to the bytes |
| ToolAlias.AliasInjective | scripts/terminal_bench_pilot/credential_relay.py:30-37 | Distinct names have distinct aliases |
| ToolAlias.AliasFits | scripts/terminal_bench_pilot/credential_relay.py:35-36 | An alias fits the provider's limit exactly for names of 1 to 46 bytes |
| ToolAlias.RewriteRequest | scripts/terminal_bench_pilot/credential_relay.py:40-118 | Succeeds exactly when every typed name can be aliased; every typed slot and no other is replaced, and the table holds exactly the request's names under their aliases |
| ToolRestore.ResponseRestored | scripts/terminal_bench_pilot/credential_relay.py:121-157 | For every request and response in both protocols, aliased names come back as the originals, other names are left alone |
| ToolRestore.UnknownNamesKept | scripts/terminal_bench_pilot/credential_relay.py:121-157 | A response without aliases is only normalised |
| ToolRestore.RewriteSseLine | scripts/terminal_bench_pilot/credential_relay.py:121-157 | The loop over choices, branches and calls restores every typed slot of a line |
| NeedleSearch.OnlyNewOccurrences | scripts/terminal_bench_pilot/scan_trial_evidence.py:17-21 | With at least length minus one bytes kept, a new occurrence lies in the overlap and the new chunk |
| NeedleSearch.ContainsBytes | scripts/terminal_bench_pilot/scan_trial_evidence.py:14-22 | True exactly when the needle occurs in the whole stream, for every chunking; an empty needle is found in any non-empty stream |
| NeedleSearch.Contains | scripts/terminal_bench_pilot/check_credential_evidence.py:8-15 | The same, with the overlap of at least one byte |
| NeedleSearch.ShorterOverlapMisses | scripts/terminal_bench_pilot/scan_trial_evidence.py:20-20 | One byte less of overlap misses a needle split across two chunks |
| Capacity.ManifestCount | scripts/package_endurance_v5/workload.py:103-115 | Distinct manifests are the smaller of the budget and 119, plus one: slot 120 needs the seed's |
| Capacity.ScopeCount | scripts/package_endurance_v5/workload.py:102-117 | The number of scopes for every budget, and all 16 exactly from 21 installs on |
| Capacity.PayloadBound | scripts/package_endurance_v5/workload.py:85-92 | The largest catalog payload is 747 bytes and bounds them all |
| Capacity.ClosurePlan | scripts/package_endurance_v5/workload.py:95-161 | The sets filled slot by slot give the closed form for every budget |
| Capacity.FitsUpTo5438 | scripts/package_endurance_v5/workload.py:156-160 | The frozen schedule fits exactly up to 5438 installs, and the descriptor member alone breaks at 5439 |
| Capacity.FittingIsAntitone | scripts/package_endurance_v5/workload.py:156-160 | A smaller budget never stops fitting, for any workers, crashes and publications |
| Capacity.FrozenBudgetFitsWithRows | scripts/package_endurance_v5/workload.py:121-129 | The frozen 4096 installs still fit with the journal and outbox members the sum leaves out |
| Capacity.WindowsFit | scripts/package_endurance_v5/workload.py:39-43 | Every frozen window has its own new slots and fits |
| FailureLedger.OpenedAreAccountedFor | scripts/package_endurance_v5/continuous_load.py:182-235 | Over every run obligations opened are open, resolved or dropped, and never more than the limit is open |
| FailureLedger.WhyItDisappears | scripts/package_endurance_v5/continuous_load.py:207-226 | An obligation disappears only by a matching success or as the least recently failed one when a new one arrives at capacity |
| FailureLedger.StepKeeps | scripts/package_endurance_v5/continuous_load.py:194-226 | The order has no duplicates, agrees with the rows, and is by last failure |
| FailureLedger.FailureLedger.Fail | scripts/package_endurance_v5/continuous_load.py:194-211 | The new rows, order and counters after a failure |
| FailureLedger.FailureLedger.Resolve | scripts/package_endurance_v5/continuous_load.py:213-226 | Clears exactly a matching obligation, and says whether it did |

## Left out

- HTTP servers, sockets, subprocesses, SQLite, ZIP files, Docker and ctypes calls: only the state steps around them are modelled.
- Real SHA-256, JSON text and UTF-8 decoding, and floating-point rounding of dollar amounts and of the 1.02 archive ratio.
- RelayVerdict.SettledExactly: the verdict reads one state; its several reads of a relay that is still running are not interleaved with other steps.
- Request parsing and response streaming in the relay handler: a step carries the body, the output cap and the usage found in the stream.
- A failure of closing the refused 408 response itself is not a step of its own.
- CredentialRelay: the wait for idle calls in close is a timeout; either outcome is a run.
- SseStream.TrailingEventExactly: of the differences from section 9.2.6 of the WHATWG HTML standard only the trailing event is stated; a lone CR as line end, a leading BOM and a data field without colon also differ, and other fields are ignored.
- BackupTheorems.CutAccepted: scopes with path separators, dots or empty segments, which pathlib rewrites, are excluded by name, as are outbox bodies that are not text.
- BackupExact.AcceptedIsCutExactly: for scopes that pathlib leaves alone, as above. Receipt and current rows hold text names and whole-number generations, and a descriptor with a receipt of another shape is refused; negative zero, binary column values, which the encoder refuses, and other collations than the binary one are not modelled.
- BackupTheorems.RemovalRejected: file names longer than the system allows, or reserved by it, are not modelled; a cut with a NUL in a scope, which cannot name a file, is excluded by name.
- BackupCut.RepositoryCut: link and regular-file checks, the schema version and the tables present are taken as passed.
- ContinuousLoad: publication, garbage collection and fault injection are not steps of the writer protocol; in the gate they are executors that may change the root.
- ContinuousLoad.NeverStale: the candidate's install is assumed to be a compare-and-swap on the generation, and a reported success to be true.
- AcceptanceWindows, FaultLedger and Intervals of the load, and the summary record of the oracle: bookkeeping with easy properties.
- BudgetLedger: refusing a ledger of another API protocol, HTTP status fields and the policy text.
- LedgerModel.GuardedReserve: the campaign limits file, the event counts and the clock are parameters.
- ReconcilePlan: files are read atomically and evidence bytes are their decoded values; path and segment-name checks are not modelled.
- ReconcileRuns: the ledger itself is changed by reconciliation only; a campaign running at the same time is excluded by the campaign lock.
- JobTree: deadlines and signals only decide whether a step is taken; they are not steps of their own. The direct process wait adds one more condition to a confirmation and is not needed for what is proved.
- HandleOwners: the handles of the Job itself and of threads and snapshots; a handle number that the system uses again counts as another handle. Once a registered handle is closed no capture starts.
- DeltaCoalescer: a flush callback that appends again from inside, or throws, is not modelled.
- ToolIds: the nesting of choices and tool calls is flattened to reading order.
- ToolIdRepair.RepairMissingToolIds: requires fewer ids in the response than there are tokens; otherwise the drawing loop might not end.
- ToolAlias.RewriteRequest: the one-file guard on the edit.patch schema and the token-parameter renames are separate rewrites and not modelled.
- ToolRestore: malformed event JSON, which ends the stream with an error.
- NeedleSearch: reads of any size are allowed, not only one mebibyte.
- The Rust runtime, the .NET session classes and the desktop user interface are not part of this model.
