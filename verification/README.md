# Verification of the state machines of chunisupport-api

This Dafny project models the parts of the repository that keep state over many calls and proves
what they keep. It has seven parts.

- **Player recalculation** (`RatingSlots`, `SlotDiff`, `OfficialSlots`, `RecalculationMaster`,
  `Recalculation`, `RecalculationFixpoint`, `RecalculationMeaning`, `RecalculationRun`,
  `RecalculationModes`, `RecalculationFingerprint`, `RecalculationChecks`): whether a player's
  rating slots are kept or rebuilt, what is stored then, the paging run, and which players it may
  leave out. A recalculation is final: with the same master data a second one changes nothing.
- **Friendships and user administration** (`FriendshipEntity`, `UserTransactions`,
  `UserTransactionsSafety`, `UserTransactionsProgress`, `UserEffects`, `UserCommits`,
  `UserUsecases`): any number of concurrent transactions that lock user rows, read, and commit
  their writes at once, with unlocked unfriending and registration in between.
- **Batch jobs** (`BatchJobEntity`, `BatchJobs`, `BatchJobsSafety`, `BatchJobsTheorems`,
  `BatchJobsSessions`, `BatchJobsRecords`): processes that share an advisory lock and a job
  table, crash, lose sessions, and have saves that fail or whose success is not acknowledged; the
  gate that shuts administration jobs out; what a lost session does to exclusive execution; and
  what is recorded.
- **Rate limiter** (`RateLimit`, `RateLimitTraces`, `RateLimitAnswers`): fixed windows over whole
  traces of calls.
- **Goals** (`Placements`, `GoalOrdering`, `GoalGroupOrdering`, `GoalRows`, `GoalUsecases`):
  objects rearranged in place, and the operations that load, rearrange and save them.
- **Chart statistics** (`ChartStatsRows`, `ChartStats`, `ChartStatsLaws`, `ChartStatsBands`,
  `ChartStatsMeaning`): one pass over the records against grouping them, what the rows count, and
  their laws.
- **Import and metric history** (`ImportSlots`, `SlotChecks`, `MetricHistory`): which imported
  lists are accepted, how the three slot checks agree, and the history of official metrics.

`Common` holds `Option` and `Result`, `Sequences` mapping and facts on lists without repetition.
Code that changes fields or loops in the repository is a class or a method with a loop here,
proved against functions on values; the theorems are lemmas about those functions. Protocols of
many participants are state machines: a step is one lock, one read, or one commit. Every lemma
switches Dafny's automatic induction off, so each induction is visible as a call.

Clocks, the network, the order in which things happen, generated IDs, the sort of the standard
library, character tables and the OVER POWER total are parameters. Times are integers; ratings,
metrics and prepared chart constants are integers in the units the code computes in.

Where the code and its documentation differ, the code is followed:

- `FullRecordsUpserted` counts every entry of an import, also those that are skipped.
- The check of the number of records in a slot (twice) and the check of leftovers when goals are
  reordered can never be what refuses an input; `GoalGroupOrder.Reorder` lacks the latter and
  accepts the same inputs.
- Two changes of the metrics whose collection times are stored as the same second leave a history
  whose newest time is the current time. It does not transfer, and every later change is refused
  until the same metrics are stored at a later time. The exact conditions are stated.
- That equal fingerprints mean equal results holds only if no song with a chart became available in
  between: the fingerprint does not cover the day. The exact condition is stated.
- That no other batch is running once the advisory lock was acquired holds only while the sessions
  that hold it live. The exact condition is stated, with a run in which two batches run at once.

## Model

| member | source | states |
|---|---|---|
| RecalculationFixpoint.SecondRunChangesNothing | internal/usecase/player_data_recalculation_batch.go:265-346 | After the update of any player is stored, a second computation on the same master data clears nothing, assigns nothing, finds nothing broken and gives the same three ratings and the same OVER POWER, whether the slots were kept, repaired because broken, or are always rebuilt |
| Recalculation.BuildUpdate | internal/usecase/player_data_recalculation_batch.go:265-346 | The loop with its switch to rebuilding on the way computes the declarative update: kept or rebuilt as a whole, with the exact broken flag and error for an unresolvable chart or song |
| Recalculation.Collect | internal/usecase/player_data_recalculation_batch.go:286-323 | The records are collected for one mode only: the flag and both lists equal those of the mode decided at the end |
| Recalculation.StillEmpty | internal/usecase/player_data_recalculation_batch.go:301-307 | The decision to rebuild on the way finds both collected lists still empty, so nothing collected for the other mode survives |
| RecalculationFixpoint.RebuiltIsNotBroken | internal/usecase/player_data_recalculation_batch.go:266-281 | Stored rebuilt slots pass the check of the main slots and are not empty if any record could be in them |
| RecalculationFixpoint.KeptAfterRebuild | internal/usecase/player_data_recalculation_batch.go:324-345 | Keeping the slots a rebuild stored gives the ratings and OVER POWER of the rebuild, although the records come in another order |
| RecalculationFixpoint.KeptIsMain | internal/usecase/player_data_recalculation_batch.go:309-316 | The records kept from a stored main slot are a permutation of those the rebuild chose for it |
| RecalculationFixpoint.RebuildMaximisesRating | internal/usecase/player_data_recalculation_batch.go:335-343 | No other choice of at most 30 older and 20 newer records gives a higher player rating than a rebuild |
| RecalculationChecks.RebuiltSlotsPass | internal/usecase/player_data_recalculation_batch.go:335-345 | The slots a rebuild stores pass the import check (no gaps in best and new, nothing outside its limit) and with it the transfer check |
| SlotDiff.DiffSlots | internal/usecase/player_data_recalculation_batch.go:357-386 | The nested loops over groups and positions and the loop over the records compute the specified clears and assignments |
| SlotDiff.DiffReachesTargets | internal/usecase/player_data_recalculation_batch.go:357-386 | Stored clears first and assignments second put every record exactly into its target slot and position, or into none without an order, and change nothing but slots |
| SlotDiff.DiffIsLeast | internal/usecase/player_data_recalculation_batch.go:354-356 | A chart the difference mentions is not where it should be, and every other difference that puts all records in place mentions it too |
| SlotDiff.DiffHasNoRepeats | internal/usecase/player_data_recalculation_batch.go:364-385 | No chart is cleared or assigned twice, and none is both cleared and assigned |
| SlotDiff.NothingLeftToDo | internal/usecase/player_data_recalculation_batch.go:357-386 | If all records are in place, nothing is cleared or assigned |
| RecalculationMaster.PrepareBatchSnapshot | internal/usecase/player_data_recalculation_batch.go:158-201 | Refused exactly if one of the five slots is missing or has ID zero, or songs or charts cannot be used, for the first of these reasons; otherwise the prepared data are those of the snapshot and every available song has an official index of its own |
| RecalculationMaster.PrepareSongs | internal/usecase/player_data_recalculation_batch.go:173-188 | Fails exactly if an available song has no decimal official index or two share one |
| RecalculationMaster.PrepareCharts | internal/usecase/player_data_recalculation_batch.go:189-194 | Fails, with the chart at fault, exactly if a chart constant is not accepted |
| RecalculationMaster.ConstantAcceptedIff | internal/domain/vo/chartconstant/chartconstant.go:20-31 | A constant is accepted exactly within 1.0 to 16.0 and with one decimal place up to the tolerance, and stands for only one number of tenths |
| RecalculationMaster.RatedSongsHaveOwnIndex | internal/usecase/player_data_recalculation_batch.go:298-308 | The availability test of the preparation and of the update agree: a rated record never gets the index zero of a missing entry |
| RecalculationRun.Execute | internal/usecase/player_data_recalculation_batch.go:62-146 | Not prepared exactly if the preparation refuses. Otherwise the keys processed are those on the pages read, each once and in their order, unless the run is cancelled within the last one; IDs ascend strictly; whoever is due whenever a page is read is processed if the run is not cut short; counters tally the outcomes; it ends in success exactly without failed players |
| RecalculationRun.ProcessPages | internal/usecase/player_data_recalculation_batch.go:82-141 | The paging ends (measure: highest ID minus the ID reached), with an empty page unless it is cut short |
| RecalculationRun.ProcessPage | internal/usecase/player_data_recalculation_batch.go:94-139 | Processes the keys of a page in order up to a cancellation |
| RecalculationRun.ProcessPlayer | internal/infra/repository/player_data_batch_repository_impl.go:99-158 | Deleted, conflict, failed or saved, by the state of the locked row, the update and the commit |
| RecalculationRun.PageCovers | internal/infra/repository/player_data_batch_repository_impl.go:83-97 | A page complete up to its size extends the range in which everybody due was processed |
| RecalculationFingerprint.SameFingerprintIff | internal/usecase/player_data_recalculation_batch.go:203-263 | With an injective hash, fingerprints are equal exactly for equal master data, in whatever order the songs and charts were read |
| RecalculationFingerprint.LeavingOutIsRightIff | internal/infra/repository/player_data_batch_repository_impl.go:81-97 | With the same fingerprint on a later day, leaving out players stored with it is right for all players (the recalculation would clear and assign nothing and give the same ratings and OVER POWER) if and only if no song with a chart became available between the two days |
| RecalculationFingerprint.LeftOutRightly | internal/infra/repository/player_data_batch_repository_impl.go:81-97 | For a single player it is enough that none of the player's own records is of such a song |
| RecalculationFingerprint.FirstSongsOpened | internal/usecase/player_data_recalculation_batch.go:203-206 | It is wrong for every player with old slots whose first available songs opened in between |
| RecalculationFingerprint.LeftOutPlayersAreSettled | internal/usecase/player_data_recalculation_batch.go:104-138 | If such a player were not left out, the player would be counted as preserved, or as legacy with unchanged slots |
| RecalculationRun.CountersAddUp | internal/usecase/player_data_recalculation_batch.go:35-51 | In every run, however it ends: processed = success + conflict + deleted + failed, success = preserved + broken + legacy, and unchanged slots are at most broken + legacy |
| RecalculationRun.SavedPlayersAreSettled | internal/usecase/player_data_recalculation_batch.go:104-138 | A saved player processed again is counted as preserved, or as legacy with unchanged slots |
| RecalculationModes.ModesByDate | internal/usecase/player_data_recalculation_batch.go:107-135 | On the log of a run: a saved player counts as legacy if and only if it never played or last played before the release day of the version at seven in the morning; otherwise as broken if and only if the orders of best or new are not distinct and from 1 to 30 or 20, or nothing is in them although a record is of a rated song that is out; otherwise as preserved |
| RecalculationModes.ValidSlotsAreKept | internal/usecase/player_data_recalculation_batch.go:104-138 | A player that last played since, with valid main slots of which one is filled, is preserved, and every stored record stays as it is |
| RecalculationModes.OthersAreRebuilt | internal/usecase/player_data_recalculation_batch.go:104-138 | What is stored for every other saved player is a rebuild; unchanged slots are counted exactly if nothing is cleared or assigned |
| RecalculationModes.OthersByRow | internal/infra/repository/player_data_batch_repository_impl.go:99-158 | Deleted exactly if the row is gone, a conflict exactly if it was collected at another time than listed, failed exactly if it cannot be read, a chart or song is unknown, or the commit fails |
| RecalculationModes.DayStartsAtSeven | internal/usecase/player_data_recalculation_batch.go:62-66 | The operational day changes at seven in the morning |
| RecalculationMeaning.RebuiltSlotsByDate | internal/usecase/player_data_recalculation_batch.go:298-322 | After every rebuild, legacy or broken: what is in best or its candidates is of songs released before the version, what is in new or its candidates of songs released with it, later or on no known day; all are of songs that are rated and out on the operational day |
| RecalculationMeaning.RebuiltSlotsFit | internal/usecase/player_data_recalculation_batch.go:335-345 | Orders are from 1 to 30, 20 or 10 by slot; a record has no order exactly outside the slots |
| RecalculationMeaning.RebuiltSlotsInOrder | internal/domain/service/rating_slot_service.go:50-62 | Within a slot the orders follow the rating, then the higher constant, the lower score, the lower official index |
| RecalculationMeaning.RebuiltSlotsHaveNoGap | internal/domain/service/rating_slot_service.go:25-47 | No order below a taken one is left out in any of the four slots |
| RecalculationMeaning.RebuiltMainSlotsAreTheFirst | internal/domain/service/rating_slot_service.go:25-33 | An older record outside best, or a newer one outside new, stands behind all records that are in it, and order 30 or 20 is taken |
| RecalculationMeaning.RebuiltCandidatesCanRise | internal/domain/service/rating_slot_service.go:34-44 | Candidates are there only if order 30 or 20 is taken, have fewer than 1,009,000 points, and would with that score rate higher than the record at that order |
| RecalculationMeaning.RebuiltCandidatesAreTheFirst | internal/domain/service/rating_slot_service.go:34-47 | Whoever could be a candidate but is in no slot stands behind all candidates, and order 10 is taken |
| RecalculationMeaning.BrokenIff | internal/usecase/player_data_recalculation_batch.go:265-307 | The slots of a current player count as broken exactly in these cases, and those of other players never |
| RecalculationMeaning.KeptSlotsStay | internal/usecase/player_data_recalculation_batch.go:324-334 | Slots that are not rebuilt stay as they are |
| RecalculationMeaning.UpdateFailsIff | internal/usecase/player_data_recalculation_batch.go:286-297 | The update fails on the first record whose chart or song the master data lack, and names it |
| RecalculationMeaning.RatingsAreAverages | internal/domain/service/rating_slot_service.go:64-80 | Rebuilt or not, the ratings of an update are truncated averages, in four decimals, over the records that are in best and new once it is stored and whose songs are out; the player's is over fifty |
| RecalculationMeaning.OverpowerIsOfThoseThatCount | internal/usecase/player_data_recalculation_batch.go:296-297 | OVER POWER is that of exactly the records of rated songs, out or not, that the player has unlocked, in their order; an ULTIMA chart can be locked on its own |
| RatingSlots.BuildRatingSlots | internal/domain/service/rating_slot_service.go:25-48 | The loop computes the specified main and candidate slots for any sort that orders its input |
| RatingSlots.SlotsArePart | internal/domain/service/rating_slot_service.go:25-48 | Main and candidate slots take disjoint parts of the pool; main slots are filled as far as the pool goes; candidates keep to their limit |
| RatingSlots.MainSlotsSumMost | internal/domain/service/rating_slot_service.go:26-29 | No other choice of that many records from the pool has a higher rating sum |
| RatingSlots.CandidatesAreTheLiftable | internal/domain/service/rating_slot_service.go:34-44 | The records considered as candidates are exactly those outside the main slots that some score would lift above the weakest main slot |
| RatingSlots.RatingIsMonotone | internal/domain/service/rating_service.go:42-79 | A higher score never rates lower, over all eleven bands and their borders, and the SSS+ score gives the highest rating of a chart |
| RatingSlots.RatingInUpperBands | internal/domain/service/rating_service.go:42-62 | From 900,000 points on: at each border the constant plus a fixed number of hundredths, and a further hundredth with every 100, 50, 250 or 150 points above it |
| RatingSlots.RatingInLowerBands | internal/domain/service/rating_service.go:63-76 | Below, in proportion to what the constant exceeds 5.0 by, and nothing below 500,000 points or for lower constants |
| RatingSlots.AggregateOfficialRating | internal/domain/service/rating_slot_service.go:64-80 | The three averages, truncated to four decimals |
| RatingSlots.StatsOfPermutation | internal/domain/service/rating_slot_service.go:64-80 | The averages do not depend on the order of the records |
| OfficialSlots.ValidateOfficialSlotSet | internal/usecase/player_data_recalculation_batch.go:428-448 | Accepts exactly if all orders of the slot are within its limit and differ; the count check never decides |
| OfficialSlots.ValidateOfficialMainSlots | internal/usecase/player_data_recalculation_batch.go:405-419 | Names the first of best and new that is invalid |
| UserTransactionsSafety.FriendshipsStayConsistent | internal/usecase/friendship_usecase_impl.go:60-227 | From any consistent store, also an empty one, in every state of every interleaving of send, accept, reject, cancel, permission change, deletion and deletion of the own account, with unlocked unfriending and registration at any point: no row to oneself, accepted rows are symmetric, a pending row has no reverse row, both users exist, and there is no other status |
| UserTransactionsSafety.OutgoingStaysBounded | internal/usecase/friendship_usecase_impl.go:243-252 | In every such state nobody has more than 100 outgoing rows, although the count is read before the write |
| UserTransactionsSafety.AdministratorRemains | internal/usecase/user_permission_usecase.go:37-72 | In every run, from when there is an administrator: there is one all along if and only if the last one never deletes the own account. No interleaving of permission changes and deletions by administrators, with requester and target read before the transaction, takes the last one away |
| UserTransactionsSafety.CommitsAreNotRefused | internal/usecase/user_permission_usecase.go:37-72 | What a transaction read under its locks still holds when it commits, so the guards of the stores never fire |
| UserTransactionsSafety.LockedUsersAreDisjoint | internal/usecase/user_lock.go:15-33 | Two transactions never hold the lock of the same user |
| UserTransactionsSafety.StepKeepsInv | internal/usecase/friendship_usecase_impl.go:137-227 | Every single step of any transaction keeps the invariant behind the theorems on users |
| UserTransactionsProgress.NoDeadlock | internal/usecase/friendship_usecase_impl.go:269-279 | While any transaction is unfinished some transaction can step, since locks are taken in ascending order of user IDs |
| UserTransactionsProgress.NoLivelock | internal/usecase/user_lock.go:15-33 | Once no transaction begins, those under way take a bounded number of steps in any order |
| UserUsecases.MachineAgrees | internal/usecase/friendship_usecase_impl.go:60-293 | A transaction of the state machine that is not interfered with has the effect and outcome of the straight-line code |
| UserCommits.CommitLeaves | internal/usecase/friendship_usecase_impl.go:60-293 | In every run, whatever others do in between: a commit leaves in the store what its request asks for, by request and row by row, on the strength of one of its own reads; acceptance leaves both directions accepted at the instant and for the request of that read, all other rows stay |
| UserUsecases.FriendshipUsecase.Send | internal/usecase/friendship_usecase_impl.go:60-111 | The store afterwards, row by row: a new pending row, or both directions accepted at that time if the other side had asked, or no change, with the reason, in the order of the checks; it is the effect of the transaction |
| UserUsecases.FriendshipUsecase.Accept | internal/usecase/friendship_usecase_impl.go:137-166 | Commits exactly if both users exist, the accepter has fewer than 100 outgoing rows and the pending row is valid once accepted; then both directions are accepted at that time and keep the time of the request, and all other rows stay; otherwise nothing changes |
| UserUsecases.FriendshipUsecase.Reject | internal/usecase/friendship_usecase_impl.go:168-191 | Exactly the pending row of the requester goes; otherwise nothing changes, with the reason |
| UserUsecases.FriendshipUsecase.Cancel | internal/usecase/friendship_usecase_impl.go:193-216 | Exactly the own pending row goes; otherwise nothing changes, with the reason |
| UserUsecases.FriendshipUsecase.Unfriend | internal/usecase/friendship_usecase_impl.go:218-227 | Both directions are removed, without locks |
| UserUsecases.FriendshipUsecase.AcceptBoth | internal/usecase/friendship_usecase_impl.go:281-293 | The pending row is accepted and the accepted reverse row saved; refused without a slot or for a row that is not pending |
| UserUsecases.FriendshipUsecase.LockUsers | internal/usecase/friendship_usecase_impl.go:269-279 | Fails with UserNotFound exactly if one of the two users is missing |
| UserUsecases.User.ChangeAccountType | internal/domain/entity/user.go:77-88 | Refuses unknown types and an administrator's own demotion; otherwise only the type changes |
| UserUsecases.UserAdministration.LockRequesterAndTarget | internal/usecase/user_lock.go:15-33 | Returns both locked users or the first missing one in ascending order |
| UserUsecases.UserAdministration.ChangePermission | internal/usecase/user_permission_usecase.go:37-87 | The account types afterwards, by the four words: 1, 2, 3 or 4 for the target and no other change, or no change, with the reason, in the order of the checks; it is the effect of the transaction |
| UserUsecases.UserAdministration.DeleteUser | internal/usecase/user_usecase_impl.go:388-449 | Exactly the target and the rows of both its directions go, or nothing, with the reason, in the order of the checks |
| UserUsecases.UserCredentials.DeleteOwnAccount | internal/usecase/user_credential_usecase.go:226-265 | The same for the own account; without a recent sign-in nothing changes |
| FriendshipEntity.Friendship.Accept | internal/domain/entity/friendship.go:59-70 | A pending or accepted row becomes accepted with the given time and is validated afterwards, so it has changed even if that fails; any other status is refused unchanged |
| BatchJobsTheorems.OneInCharge | internal/usecase/chart_stats_batch_job_usecase.go:127-224 | In every run of any number of processes, with crashes and failing or unacknowledged saves, at most one worker is between acquiring and releasing the lock |
| BatchJobsTheorems.OnlyOwnJobRuns | internal/usecase/chart_stats_batch_job_usecase.go:151-211 | While a batch executes, the only RUNNING row of the table is its own, as it was created |
| BatchJobsTheorems.SavesAreAccepted | internal/infra/repository/chart_stats_batch_job_repository_impl.go:42-63 | No worker ever meets a row that was finished behind its back |
| BatchJobsTheorems.StatusMatchesFinishingTime | internal/domain/entity/chart_stats_batch_job.go:102-126 | A row of the table is RUNNING exactly while it has no finishing time |
| BatchJobsTheorems.FinishedJobsNeverChange | internal/domain/entity/chart_stats_batch_job.go:182-190 | A finished row never changes again, even after a session was lost |
| BatchJobsTheorems.ReleasedExactlyOnce | internal/usecase/chart_stats_batch_job_usecase.go:213-224 | Every acquisition is released exactly once when its worker ends, never before, and at most once if its process crashes |
| BatchJobsTheorems.NothingRunsAfterWait | internal/usecase/chart_stats_batch_job_usecase.go:76-109 | Once Wait has returned no administration job of the process is under way and none gets past the gate in the rest of the run |
| BatchJobsTheorems.NothingBeginsAfterCancel | internal/usecase/chart_stats_batch_job_usecase.go:64-110 | In a process that was cancelled no administration job begins that had not passed the gate before |
| BatchJobsRecords.FinalSaveRecords | internal/usecase/chart_stats_batch_job_usecase.go:169-216 | In every run, a final save that is stored records an execution by the worker that created the job: SUCCEEDED without a message exactly if it succeeded, INTERRUPTED exactly if it erred in a cancelled process, FAILED with a message that is not blank exactly if it erred otherwise; at its instant, with trigger, requester and start and all other rows unchanged |
| BatchJobsRecords.ExecutionConcludes | internal/usecase/chart_stats_batch_job_usecase.go:183-214 | Every execution is saved so, except a failure with a blank message, which is not saved |
| BatchJobsRecords.ResultsStemFromExecutions | internal/usecase/chart_stats_batch_job_usecase.go:169-216 | A row that becomes SUCCEEDED or FAILED in a run stems from such an execution of the worker that created it |
| BatchJobsRecords.RowsEnd | internal/usecase/chart_stats_batch_job_usecase.go:151-167 | A running row changes only by its own worker's save or by another that finds it and makes it INTERRUPTED without a message |
| BatchJobsRecords.RowsAppearRunning | internal/domain/entity/chart_stats_batch_job.go:78-100 | A row appears only as a running job of its worker, with a requester only for administration |
| BatchJobsRecords.NormalizedIsReason | internal/domain/entity/chart_stats_batch_job.go:174-180 | A message is kept without white space around it, cut to 1000 characters, and is empty exactly if it was blank |
| BatchJobsSessions.SharedIffLeftAlone | internal/usecase/chart_stats_batch_job_usecase.go:127-149 | In every reachable state, a continuation that loses no further session leads to two workers in charge if and only if a worker in charge no longer holds the lock |
| BatchJobsSessions.LostIff | internal/usecase/chart_stats_batch_job_usecase.go:127-149 | In every run a worker in charge no longer holds the lock exactly if its session was lost while it held it; no crash, failed save or failed release of anybody takes it away |
| BatchJobsSessions.SharedIffLost | internal/usecase/chart_stats_batch_job_usecase.go:151-157 | So another batch can join exactly if a session was lost whose worker is still in charge |
| BatchJobsSessions.LostSessionRun | internal/usecase/chart_stats_batch_job_usecase.go:169-224 | A run of nine steps from any initial state that loses one session and ends with two workers in charge |
| BatchJobsSafety.StepKeepsInv | internal/usecase/chart_stats_batch_job_usecase.go:64-224 | Every step of any process keeps the invariant on jobs, releases and the shutdown gate, sessions lost or not |
| BatchJobEntity.Reconstruct | internal/domain/entity/chart_stats_batch_job.go:102-126 | A stored row is accepted exactly if its status, trigger and finishing time fit together, and its names and fields are kept |
| BatchJobEntity.ChartStatsBatchJob.Finish | internal/domain/entity/chart_stats_batch_job.go:182-190 | A running job takes the terminal status, message and time; a finished one is refused unchanged |
| BatchJobEntity.ChartStatsBatchJob.Complete | internal/domain/entity/chart_stats_batch_job.go:153-155 | Completion finishes without a message |
| BatchJobEntity.ChartStatsBatchJob.Fail | internal/domain/entity/chart_stats_batch_job.go:158-166 | Failure needs a message that is not blank |
| BatchJobEntity.ChartStatsBatchJob.Interrupt | internal/domain/entity/chart_stats_batch_job.go:169-171 | Interruption keeps the normalised message |
| RateLimitTraces.IntervalBound | internal/app/middleware/rate_limit_middleware.go:84-114 | Over every trace of calls, limit changes and sweeps, any closed interval of a window's length admits at most 2L requests of one identifier; a shorter one at most 2L - 1 if every limit is positive |
| RateLimitTraces.OneWindowBound | internal/app/middleware/rate_limit_middleware.go:84-114 | One window never admits more than the largest limit asked for, even when the limit changes within it |
| RateLimitTraces.IntervalBoundIsReached | internal/app/middleware/rate_limit_middleware.go:84-114 | The bound 2L is reached for every L and every window |
| RateLimitTraces.RejectedRequestOpensWindow | internal/app/middleware/rate_limit_middleware.go:88-99 | With a limit of zero a rejected request opens a window, and the shorter interval reaches 2L |
| RateLimitTraces.SweepsAreUnobservable | internal/app/middleware/rate_limit_middleware.go:117-127 | With a clock that never goes back, sweeps inserted anywhere change no answer, no remaining count and no reset time |
| RateLimit.FixedWindowStore.Allow | internal/app/middleware/rate_limit_middleware.go:84-114 | The call on the mutable entries has the effect and the answer of the specified step |
| RateLimit.FixedWindowStore.Cleanup | internal/app/middleware/rate_limit_middleware.go:117-127 | Drops exactly the counters older than two windows |
| RateLimitAnswers.AnswersMean | internal/app/middleware/rate_limit_middleware.go:84-114 | In every trace, each answer from the answers before it: a window that is not over goes on, otherwise one begins; a request is admitted exactly if the window has admitted fewer than the limit, and what remains is the limit minus those admitted, the request included |
| GoalOrdering.GoalArrangement.New | internal/domain/entity/goal_arrangement.go:17-32 | Succeeds exactly for the user's own distinct goals and numbers every group; on refusal nothing changes |
| GoalOrdering.GoalArrangement.Reorder | internal/domain/entity/goal_arrangement.go:52-69 | Succeeds exactly for the permutations of the group's IDs; the group then follows that order in its list positions and nothing else moves; on refusal nothing changes |
| GoalOrdering.GoalArrangement.Move | internal/domain/entity/goal_arrangement.go:72-98 | The goal goes to the tail of its new group and every group stays numbered; staying in its group or an unknown ID changes nothing |
| GoalOrdering.GoalArrangement.Remove | internal/domain/entity/goal_arrangement.go:101-119 | Exactly the one goal goes and its group closes up |
| GoalOrdering.GoalArrangement.RemoveGroup | internal/domain/entity/goal_arrangement.go:122-138 | The group's goals go to the tail of the ungrouped ones, in their order |
| GoalOrdering.NormalizeAll | internal/domain/entity/goal_arrangement.go:140-153 | Every goal gets its rank within its group, whatever numbers it had |
| GoalOrdering.NormalizeGroup | internal/domain/entity/goal_arrangement.go:155-160 | The goals of the group get their ranks and no other goal changes |
| GoalOrdering.GoalOrder.New | internal/domain/entity/goal_order.go:19-34 | Succeeds exactly for distinct goals of the user and the group, numbered 1 to n |
| GoalOrdering.GoalOrder.Reorder | internal/domain/entity/goal_order.go:50-73 | Accepts exactly the permutations of its IDs |
| GoalOrdering.GoalOrder.Remove | internal/domain/entity/goal_order.go:76-92 | Drops the goal and closes the gap, or changes nothing |
| GoalOrdering.TakenIffPermutation | internal/domain/entity/goal_order.go:54-69 | Looking the IDs up one by one succeeds exactly for permutations, and then nothing is left over, so the last check is unreachable |
| GoalGroupOrdering.GoalGroupOrder.New | internal/domain/entity/goal_group_order.go:17-32 | Succeeds exactly for the user's own distinct groups, numbered 1 to n |
| GoalGroupOrdering.GoalGroupOrder.Reorder | internal/domain/entity/goal_group_order.go:43-63 | Without the check of leftovers, still exactly the permutations are accepted |
| GoalGroupOrdering.GoalGroupOrder.Remove | internal/domain/entity/goal_group_order.go:66-82 | Drops the group and closes the gap, or changes nothing |
| Placements.MovedGroups | internal/domain/entity/goal_arrangement.go:83-98 | After a move the new group ends with the goal, the old one keeps its order without it, and all other groups are as they were |
| Placements.ReorderedGroups | internal/domain/entity/goal_arrangement.go:60-68 | After reordering the group has the given order and all others are as they were |
| Placements.DissolvedGroups | internal/domain/entity/goal_arrangement.go:122-138 | After dissolving, the ungrouped goals are followed by the group's goals in their order and all other groups are as they were |
| Placements.MovedKeepsGoals | internal/domain/entity/goal_arrangement.go:83-98 | A move loses and doubles no goal |
| Placements.ReorderedKeepsGoals | internal/domain/entity/goal_arrangement.go:60-68 | Reordering loses and doubles no goal |
| Placements.DissolvedKeepsGoals | internal/domain/entity/goal_arrangement.go:127-136 | Dissolving loses and doubles no goal |
| Placements.WithoutDropsOne | internal/domain/entity/goal_arrangement.go:101-119 | Removing drops exactly one goal |
| GoalRows.ListGoals | internal/infra/repository/goal_repository_impl.go:28-43 | Lists every row once, by group order, ungrouped last, then by sort order and ID |
| GoalRows.ListingKeepsGroups | internal/infra/repository/goal_repository_impl.go:28-43 | Listing rows that were saved from an arrangement gives every group its order back |
| GoalUsecases.SaveGoalArrangement | internal/infra/repository/goal_repository_impl.go:119-180 | Refused exactly unless the goals are those of the table; otherwise the rows are the arrangement, with no sort order wrapping in 16 bits |
| GoalUsecases.SmallRanksFit | internal/usecase/goal_usecase_impl.go:63-94 | With at most 300 goals no rank wraps in 16 bits |
| GoalUsecases.GoalUsecase.CreateGoal | internal/usecase/goal_usecase_impl.go:56-100 | The new goal is last in its group; limit and ownership are checked in this order; every group stays numbered without gaps |
| GoalUsecases.GoalUsecase.UpdateGoal | internal/usecase/goal_usecase_impl.go:111-172 | A changed group moves the goal to its tail and the row saved last agrees with the arrangement; all groups stay numbered |
| GoalUsecases.GoalUsecase.DeleteGoal | internal/usecase/goal_usecase_impl.go:183-209 | The goal goes and its group closes up; loading, deleting and saving agree on the goals, so saving is never refused |
| GoalUsecases.GoalUsecase.ReorderGoals | internal/usecase/goal_usecase_impl.go:212-233 | Succeeds exactly for an owned group and a permutation of its stored goals |
| GoalUsecases.GoalUsecase.CreateGroup | internal/usecase/goal_group_usecase_impl.go:40-75 | The new group is last, up to 20 groups |
| GoalUsecases.GoalUsecase.ReorderGroups | internal/usecase/goal_group_usecase_impl.go:148-166 | Succeeds exactly for permutations of the stored groups |
| GoalUsecases.GoalUsecase.DeleteGroup | internal/usecase/goal_group_usecase_impl.go:108-146 | The group's goals end up ungrouped in their order, the other groups close up, and no goal is left in a missing group |
| ChartStatsLaws.StreamedRowsAreGrouped | internal/domain/chartstatsbatch/chart_stats_calculator.go:28-68 | For every stream in which the records of a chart are not interrupted, the rows are those of the records grouped by chart: one per chart in first-occurrence order and band in band order with at least one record |
| ChartStats.Calculate | internal/domain/chartstatsbatch/chart_stats_calculator.go:23-59 | Streaming any records through the calculator gives the rows of its closed groups, which the rows on bands and meaning below are about, and counts the records |
| ChartStats.ChartStatsCalculator.Add | internal/domain/chartstatsbatch/chart_stats_calculator.go:28-48 | Another chart closes the current group; every band that contains the record counts it, in accumulators that are never shared |
| ChartStats.ChartStatsCalculator.Flush | internal/domain/chartstatsbatch/chart_stats_calculator.go:61-68 | The rows of the current chart are appended, one per band with records |
| ChartStats.ChartStatsAccumulator.Add | internal/domain/chartstatsbatch/chart_stats_calculator.go:79-86 | All counters stay those of the records added so far |
| ChartStats.ChartStatsAccumulator.Result | internal/domain/chartstatsbatch/chart_stats_calculator.go:147-163 | The row of the records added: counts, average and median, the latter two missing without cleared records |
| ChartStatsLaws.RowAddsUp | internal/domain/chartstatsbatch/chart_stats_calculator.go:79-144 | Rank counts add up to the players who cleared; clear and combo counts to all players but those with unknown lamps |
| ChartStatsBands.RowsOfPartsAddUp | internal/domain/chartstatsbatch/chart_stats_calculator.go:28-68 | If bands split a larger one, each of the nineteen counters of a row the calculator returns for it, the number of players included, is the sum of that counter over the returned rows of the parts for the chart; a part without a row adds nothing |
| ChartStatsBands.WholeHasRowIff | internal/domain/chartstatsbatch/chart_stats_calculator.go:36-46 | The larger band has a row for a chart if and only if one of the parts has |
| ChartStatsBands.CalculatedRow | internal/domain/chartstatsbatch/chart_stats_calculator.go:61-68 | A returned row carries the whole total of its chart and band, so there is only one of them |
| ChartStatsMeaning.CountersMean | internal/domain/chartstatsbatch/chart_stats_calculator.go:79-144 | Each of the nineteen counters of a returned row is the size of the set of the chart's records in the band with the scores or the lamp it stands for, in numbers: S is 975,000 up to 990,000 points, and so on; ranks leave out failed records |
| ChartStatsMeaning.AverageMeans | internal/domain/chartstatsbatch/chart_stats_calculator.go:147-154 | The average times the number of records that are not failed is the sum of their scores; it is missing exactly if there are none |
| ChartStatsMeaning.MedianMeans | internal/domain/chartstatsbatch/chart_stats_calculator.go:155-161 | The median is the middle of those scores in ascending order, or the mean of the two middle ones |
| ChartStatsMeaning.RowIffRecords | internal/domain/chartstatsbatch/chart_stats_calculator.go:36-46 | A chart has a row for a band exactly if a record of it is in the band, the lower end included and the upper end not |
| ChartStatsMeaning.RowsInOrder | internal/domain/chartstatsbatch/chart_stats_calculator.go:61-68 | Rows come chart by chart as the charts first occur, and in the order of the bands |
| ChartStatsLaws.MeetingBandsSplit | internal/domain/vo/ratingband/ratingband.go:15-20 | Two bands that meet split the band from the start of one to the end of the other; the border rating is counted once |
| ChartStatsLaws.MedianIsMiddle | internal/domain/chartstatsbatch/chart_stats_calculator.go:154-161 | At least half of the scores are at most, at least half at least as high as the median, which does not depend on their order |
| ChartStatsLaws.RowOfPermutation | internal/domain/chartstatsbatch/chart_stats_calculator.go:79-163 | A whole row depends on which records it covers, not on their order |
| SlotChecks.ValidateFullRecordSlots | internal/usecase/player_data_usecase_impl.go:1374-1419 | Accepts exactly known slots, records outside the slots without order, distinct orders within the limits, and best and new without gaps |
| SlotChecks.MainOrdersAreOneToN | internal/usecase/player_data_usecase_impl.go:1410-1417 | In an accepted list the orders of best and of new are exactly 1 to their number of records, within the limit |
| SlotChecks.ImportedSlotsPass | internal/domain/entity/user_data_transfer_record_validation.go:75-99 | What is imported passes the transfer check and the check before a recalculation |
| SlotChecks.ValidateUserDataTransferSlots | internal/domain/entity/user_data_transfer_record_validation.go:75-99 | Accepts exactly known slots with distinct orders within the limits; the check of the limit is unreachable |
| SlotChecks.TransferSlotsAre | internal/domain/entity/user_data_transfer_record_validation.go:75-99 | The accepted lists in numbers: five names, orders from 1 to 30, 20 or 10, none twice, none outside the slots |
| ImportSlots.ApplyFullScores | internal/usecase/player_data_usecase_impl.go:1234-1289 | The records are those of the entries that resolve, in order; the first count covers skipped entries too |
| ImportSlots.RecordsCarryEntries | internal/usecase/player_data_usecase_impl.go:1255-1286 | The k-th record is that of the k-th entry that is not skipped, with its chart, its score, its order and the ID of the slot that it names |
| ImportSlots.NotSkippedIff | internal/usecase/player_data_usecase_impl.go:1240-1275 | An entry is skipped exactly if its chart or lamps are unknown, its score is out of range, or no slot has the name it gives, without white space around it and in lower case |
| ImportSlots.ValidateMainSlotRecordsResolved | internal/usecase/player_data_usecase_impl.go:1355-1372 | Accepts exactly if there are at least as many best and new records as entries |
| ImportSlots.AcceptedIffNoneLost | internal/usecase/player_data_usecase_impl.go:1353-1372 | On the records of the entries: accepted exactly if no best or new entry was skipped for any reason |
| ImportSlots.MissingAreTheLost | internal/usecase/player_data_usecase_impl.go:1356-1367 | The counter ends as the number of best and new entries that were skipped, so it is never negative |
| ImportSlots.SavedMainEntries | internal/usecase/player_data_usecase_impl.go:1945-1958 | Case folding of the entry test and lower case of the slot lookup agree on every entry that resolves |
| ImportSlots.LongSIsRefused | internal/usecase/player_data_usecase_impl.go:153-159 | They disagree on a slot written with a long s: it counts as best, cannot be stored, and the list is refused |
| ImportSlots.NormalizeFullRecordsForUpsert | internal/usecase/player_data_usecase_impl.go:1339-1351 | The loop with its table of positions computes the specified list |
| ImportSlots.LastWinsAtFirstPlace | internal/usecase/player_data_usecase_impl.go:1339-1351 | One record per chart, its last one, at the place of its first one |
| MetricHistory.RunsStayKept | internal/domain/entity/player.go:59-82 | Every run of accepted calls at any times, each saved and loaded again, keeps times strictly ascending up to the current one, which the newest may equal, neighbours different and at most 500 entries |
| MetricHistory.RunsStaySound | internal/domain/entity/player.go:59-82 | If all calls come at whole seconds, the newest time stays before the current one, and no call is ever refused because its time is taken |
| MetricHistory.ChangeRefusedIffStuck | internal/infra/repository/player_metric_history_repository_impl.go:25-34 | A change that is neither stale nor at the current time is refused, since the time to remember is taken, exactly if the newest history time equals the current one |
| MetricHistory.ChangeKeepsOrderIff | internal/domain/entity/player.go:64-74 | For any times: after a change the history is before the current metrics exactly if the stored time got later, and its newest time equals the current one exactly if the stored time stayed |
| MetricHistory.StuckChangesAreRefused | internal/infra/repository/player_repository_impl.go:256-264 | From a state whose newest history time equals the current one, every attempt to change the metrics, in any number and at any times, is refused and leaves the state as it is |
| MetricHistory.StuckEndsIff | internal/domain/entity/player.go:59-82 | Only a call with the same metrics that is stored at a later time ends this |
| MetricHistory.TransfersIffNotStuck | internal/domain/entity/user_data_transfer_record_validation.go:186-220 | What a run leaves behind passes the transfer check exactly if its newest history time is not its current time |
| MetricHistory.Player.ChangeOfficialMetrics | internal/domain/entity/player.go:59-82 | Older data and different data of the same time are refused unchanged; otherwise the metrics are replaced and the replaced ones remembered if they differ |
| MetricHistory.PlayerRepository.EnsurePlayer | internal/usecase/player_data_usecase_impl.go:721-759 | Loading, changing and saving is one registration step, which keeps the history in order; a refused one, also one whose time to remember is taken, changes nothing |
| MetricHistory.PlayerRepository.Save | internal/infra/repository/player_metric_history_repository_impl.go:25-76 | Refused without a change exactly if the time of the remembered entry is taken; otherwise the entry is appended and the history pruned to its 500 newest entries |
| MetricHistory.ValidateUserDataTransferMetricHistories | internal/domain/entity/user_data_transfer_record_validation.go:186-220 | Accepts exactly histories within the limit, with valid metrics and times that ascend by whole seconds and precede the current one |
| MetricHistory.SecondCallOfRegistration | internal/usecase/player_data_usecase_impl.go:393-435 | If the first call of a registration is accepted, the second is accepted exactly if the time column does not store the time later than it is, and then appends nothing |
| MetricHistory.ChangesWithinOneSecond | internal/domain/entity/player.go:61-73 | Changes at 10 s and 10 s + 1 µs are accepted by every column that stores both as 10 s; the history then does not transfer, and a change at 12 s is refused |

## Left out

- ExecOutcome of the statistics batch: what a batch computes and replaces is modelled in the statistics part, not inside the job protocol.
- BatchJobsTheorems.OneInCharge: assumes that no session holding the lock is lost while its process goes on; `BatchJobsSessions` says exactly when exclusion can fail otherwise.
- BatchJobsTheorems.OnlyOwnJobRuns: assumes the same.
- BatchJobsTheorems.SavesAreAccepted: assumes the same.
- History of jobs: the trimming on insertion, which deletes every row that started before a cutoff whatever its status, is not modelled: no row is removed from the table.
- BatchJobsTheorems.FinishedJobsNeverChange: about a table from which no row is removed.
- The song batch job, which follows the same protocol as the chart statistics job.
- UserUsecases.UserCredentials.DeleteOwnAccount: which account the recent sign-in was for is one flag, and its errors are one failure; the deletion of the sign-in account afterwards is not modelled.
- UserUsecases.User.ChangeAccountType: the time of the last update is not modelled.
- UserUsecases.UserAdministration.DeleteUser: of what goes with a user only the friendships are modelled, not goals and their groups.
- Isolation of the database: a transaction's reads are steps of their own and its writes one atomic step at its commit; lock waits that time out appear as aborts.
- Usernames: requests name users by ID; the lookup of a name before the transaction is a stale parameter.
- The friendship status Blocked, which no operation creates; it is shown that no reachable row has it.
- RecalculationRun.Execute: the states of the database between steps are parameters, and so is which players are due.
- RecalculationFingerprint: the hash of the serialised master data is any injective function; the IDs of the version and of the logic are not part of the model, nor is the clearing of the stored fingerprint when ratings change otherwise.
- The OVER POWER formula: any function of the records that count for it.
- RecalculationMaster.PrepareCharts: chart constants are reals, so only their rounding to tenths is modelled, not that of floating point numbers.
- Official indexes are numbers or not; their parsing and its limit of 64 bits are not modelled.
- ImportSlots.ApplyFullScores: whether an entry's chart, score range and lamps resolve is part of the entry; lamps and update times are not carried into the records.
- ImportSlots.AcceptedIffNoneLost: for slot tables with exactly the five slots of the migration.
- Unicode beyond the letters of the main slot names; white space and lower case of other characters are arbitrary functions.
- MetricHistory.RunsStaySound: for whole seconds; `RunsStayKept`, `ChangeKeepsOrderIff` and `SecondCallOfRegistration` say what happens at any times.
- MetricHistory.RunsStayKept: for calls whose time the column stores after the zero time.
- MetricHistory.PlayerRepository.Save: of the player row only the metrics and their time are modelled; the column of times is any that keeps whole seconds and their order.
- MetricHistory.ValidateUserDataTransferMetricHistories: for times from the zero time on, in UTC.
- Goal and group names, and the attributes and achievement parameters of goals.
- GoalUsecases: the lock of the user makes the operations of one user sequential, so they are methods of one object.
- Statistics of the best slots, which count per key without state between records.
- ChartStatsAccumulator: averages and medians are reals; rounding of floating point numbers and the width of counters are not modelled.
- RateLimit: identifiers and limits by account type, headers, and the mutex, which makes calls atomic.
- HTTP, SQL text, JSON, logging, configuration, authentication and object storage.
