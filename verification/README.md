# Verified model of the image service

A Dafny model of the parts of the repository that move money-like amounts, hand out shared accounts or
survive a lossy file format, with proofs of what they promise. `dafny verify dfyconfig.toml` checks it all.

| file | what it models |
|---|---|
| TaskTable.dfy | table `image_tasks_v3` and its statements, each one guarded atomic step on rows |
| KeyQuota.dfy | user keys, their daily, monthly and lifetime counters, charges and refunds |
| TaskProtocol.dfy | table, counters, charges in hand and refunds owed as one transition system; conservation |
| TaskRuns.dfy | safety of whole runs: settled once, fencing, idempotent submission |
| TaskTimes.dfy | what the times in a row mean: exclusion, recovery, delay, deadline, retention |
| TaskHands.dfy | one process among many: what the others can and cannot change for it |
| TaskService.dfy | the drivers: submission, worker, expiry, cancellation, with steps of others before every store call |
| AccountPool.dfy, Rotation.dfy | the locked account pool: rotating window, pick, slots and upload reservations with ghost holders |
| AccountLeases.dfy, UploadLeases.dfy, Accounts.dfy | the lease table across processes, its cap under clocks that disagree, upload quota |
| ImageAttempts.dfy | what one image request may try, and how attempts and routes end |
| ImageRoutes.dfy, ImageBatch.dfy | the retry loop over accounts and routes under interference, and the batch result |
| ToolSieve.dfy | the streaming sieve that withholds tool markup |
| DomainBlacklist.dfy, BlacklistFile.dfy | the mail-domain blacklist, its file form and its operations |
| MailboxPool.dfy, MailboxMerge.dfy | the mailbox-pool printer, parser and merge, and importing the same text twice |
| RegisterRun.dfy | the registration run loop and its accounting |
| ImageEvictor.dfy | the storage evictor |
| RefreshCursor.dfy | the round-robin refresh cursor |
| Common.dfy, Text.dfy | shared vocabulary: options, Go maps, trimming, string search |

How it is built:

- Code that updates state is a class or a method with the same branches. Methods are proved against
  specification functions or outright properties; laws about whole runs are lemmas over those functions.
- Concurrency: a run of the task protocol is any sequence of enabled steps of any processes, with arbitrary
  clock readings. The drivers in TaskService and ImageRoutes meet arbitrary steps of others at every store or
  pool call; what the others may do is itself a list of protocol steps, or any books that add up.
- Randomness, the network, the file system and library calls are parameters: clock readings, claim and lease
  ids, whether a store call fails, what generation, saving, setup and workers answer, how errors are classified.

Assumptions, each visible in a contract:

- Claim ids and lease ids are fresh; hashing a token or an owner and client id is injective.
- Account tokens are stored trimmed and are not blank. The exclusion set holds the trimmed form
  (`image_pool.go:58-71`), the pick compares the raw one (`account_pool.go:110-114`); UntrimmedIsPickedAgain shows
  that a turn on an untrimmed token leaves budget and pool as they were and the account to be picked again.
- Key ids are unique and no key is called `admin`.
- A store or SQL call succeeds or has no effect.
- Text that is lower-cased is ASCII.
- The upstream client fails with an error of its own or a cancellation; only its setup can find an account busy
  (`upstream.go:2482`), and only the lease statement fails with a lease error.

Where the code and what one would expect of it part, the model follows the code:

- FailTask with a blank worker id fails any open row (`pg_tasks.go:390-407`); ClaimGuards states the exception.
- ClaimTaskByID takes a queued row without looking at the delay it was put back with (`pg_tasks.go:343-360`);
  RequeuedIsTakenIff is about ClaimTask.
- A refused lease rolls back the sweep of expired leases with it (`pg_tasks.go:570-601`); a fast clock can grant
  beyond the cap for times before its reading (FastClockOvergrants).
- The account snapshot that a lease is asked for with may be stale, but must not promise more uploads than the
  record still has; a negative quota in it switches the upload bound off. SafeSnapshotIff shows that this is
  exactly what is needed, StaleSnapshotOverCommits a snapshot that is not safe.
- A refund goes to the current day's and month's counters even when the charge was made earlier. RefundIsNeutralIff
  says exactly when that is noticed; conservation is therefore stated for the lifetime counter.
- The alias of a refreshed token is recorded only after a successful setup, and only the token used then
  (`image_pool.go:184-222`). After an attempt that is to be retried an account that has been renamed is attempted
  again exactly when the attempt was not set up under the new token (SameAccountTwice): when the setup failed after
  a refresh (SetupFailedTwice), or when the watcher refreshed the token after a successful setup. No attempt repeats
  a token or an alias recorded for an earlier one.
- The branch for a refused reservation in the retry loop (`image_pool.go:174-183`) cannot be taken: no scope is
  shared between goroutines and the pick excludes what was attempted. The model shows that Reserve accepts.
- The pool falls back to a concurrency of three, the lease to one, when none is configured.
- The blacklist file does not store the automatic source as a field. A source other than the two known ones is
  lost on the next load unless the domain is also manual, and lost once it is no longer manual (RecordLasts,
  ReloadIsExact). Recording a reason of white space only for a manual domain reads back as `manual`.
- A mailbox field that ends in a dash runs into the separator (LineRoundTrip). In a password or a client id this
  does not matter for importing the same text again, as long as the line can be read: it is read under the same
  email and overwritten (MergeTwice); in an email it adds a second account, unless the pool has the shorter email (ImportTwiceIff,
  DashedEmailIsDoubled).
- A worker result is counted twice, as its outcome and as a failure, when recording the per-source statistics
  raises (`register_service.py:1224-1243`, `1320-1327`), as a failing write of the blacklist can make it. The plain
  law, that done is successes, failures, uncounted stops and user cancels, holds of a run exactly when this happened
  for no settled result (Run, PlainAccounting); RejectedDomainCountsTwice is a run of one worker that breaks it.

## Model

| member | source | states |
|---|---|---|
| TaskTable.PGTaskStore.GetTask | internal/app/pg_tasks.go:198-207 | a row is shown only to its owner or an admin, unchanged |
| TaskTable.PGTaskStore.CreateTask | internal/app/pg_tasks.go:141-196 | a new id is inserted with N clamped to 1..4 and the default deadline; a known id, a blank owner or a blank prompt changes nothing; the caller learns which |
| TaskTable.PGTaskStore.ClaimTask | internal/app/pg_tasks.go:310-341 | claims an oldest claimable row that nobody else locks, or none exactly when there is none, and rewrites only that row; what claimable means over time is stated by TaskTimes |
| TaskTable.PGTaskStore.ClaimTaskByID | internal/app/pg_tasks.go:343-360 | claims the named row if it is queued and not past its deadline, otherwise changes nothing |
| TaskTable.PGTaskStore.HeartbeatTask | internal/app/pg_tasks.go:362-374 | extends the claim and says so exactly when the row is running under this claim id |
| TaskTable.PGTaskStore.CompleteTask | internal/app/pg_tasks.go:376-388 | settles a running row under this claim id as success; otherwise no change is reported or made |
| TaskTable.PGTaskStore.FailTask | internal/app/pg_tasks.go:390-407 | settles an open row as error under its claim id, or under a blank one; otherwise no change |
| TaskTable.PGTaskStore.RequeueTask | internal/app/pg_tasks.go:409-421 | puts a running row back in the queue under its claim id, not before the delay; otherwise no change |
| TaskTable.PGTaskStore.CancelTask | internal/app/pg_tasks.go:423-443 | cancels an open row that the identity may see and returns it; otherwise no change |
| TaskTable.PGTaskStore.CancelTasksByClientTaskID | internal/app/pg_tasks.go:449-482 | cancels exactly the identity's open rows with that client task id, each listed once |
| TaskTable.PGTaskStore.ExpireOverdueTasks | internal/app/pg_tasks.go:484-517 | times out an oldest-first batch of overdue open rows that nobody locks, each listed once |
| TaskTable.PGTaskStore.DeleteFinishedTasksBefore | internal/app/pg_tasks.go:519-551 | deletes an oldest-first batch of settled rows last touched by the cutoff and never an open row |
| TaskTable.TakeOldest | internal/app/pg_tasks.go:484-517 | the loop behind an ordered, limited SELECT returns an oldest-first batch of the wanted size |
| TaskTable.OldestExists | internal/app/pg_tasks.go:310-341 | a nonempty set of candidates has an oldest one, so the claim query finds a row when one is claimable |
| TaskTable.ExecAllFrame | internal/app/pg_tasks.go:449-517 | a multi-row statement leaves the rows it does not name alone |
| TaskTable.PurgeAllFrame | internal/app/pg_tasks.go:519-551 | a purge leaves the rows it does not name alone |
| KeyQuota.KeyStore.ConsumeQuota | internal/app/auth.go:513-546 | charges the three counters of the named key, after the period rollover, when all of them can take it; says whether it did |
| KeyQuota.KeyStore.RefundQuota | internal/app/auth.go:559-579 | lowers the three counters of the named key, each floored at zero |
| KeyQuota.KeyStore.ResetPeriods | internal/app/auth.go:587-604 | a new day or month starts its counters at zero and leaves the lifetime ones |
| KeyQuota.CountersStayInBounds | internal/app/auth.go:513-604 | any run of charges and refunds over any days and months keeps every limited counter in [0, quota] |
| KeyQuota.OneOpStaysInBounds | internal/app/auth.go:513-604 | one charge or refund keeps every limited counter in [0, quota] |
| KeyQuota.ChargeAcceptedIffItFits | internal/app/auth.go:529-585 | a charge is accepted exactly when every limited counter would still be within its quota |
| KeyQuota.ChargeIsAllOrNothing | internal/app/auth.go:513-546 | a rejected charge changes nothing at all; an accepted one raises all three counters of one kind by the same amount, changes no quota, and does no more than start a new period for the other kind |
| KeyQuota.RefundTouchesOneMeter | internal/app/auth.go:559-579 | a refund lowers the three counters of one kind of one key, none below zero, and touches no quota, no period, not the other kind and no other key |
| KeyQuota.TotalAfterConsume | internal/app/auth.go:513-546 | the lifetime image counter of a key grows exactly by the amount charged to it |
| KeyQuota.TotalAfterRefund | internal/app/auth.go:559-579 | the lifetime image counter of a key falls by the refund, floored at zero |
| KeyQuota.RefundIsNeutralIff | internal/app/auth.go:513-604 | a charge that is refunded after a later charge leaves the lifetime counter as if it had never been made; the daily counter exactly when both charges fell on one day, the monthly one exactly when in one month |
| KeyQuota.RefundCrossesMidnight | internal/app/auth.go:559-604 | the failing case: a charge of 2 refunded after midnight takes away the 1 charged that day |
| TaskProtocol.QuotaIsConserved | internal/app/worker.go:115-248 | over every interleaving a key's lifetime counter equals its base plus N per open task, images delivered, charges not inserted yet and refunds owed |
| TaskProtocol.RefundsAreExact | internal/app/auth.go:559-579 | in every run each refund lowers the lifetime counter by exactly its amount, so the floor at zero never acts on it |
| TaskProtocol.OwedIsCovered | internal/app/auth.go:559-579 | a key's counter covers every refund still owed to it |
| TaskProtocol.SettledAccounts | internal/app/worker.go:115-248 | with nothing in flight only open tasks and delivered images are paid for |
| TaskProtocol.StepIsConserving | internal/app/pg_tasks.go:141-551 | each single step keeps the state sound and, for every key at once, the part of its counter that is not accounted for |
| TaskProtocol.SettlingConserves | internal/app/worker.go:233-248 | settling a row turns its units into delivered images and a refund, nothing else |
| TaskProtocol.ChargeConserves | internal/app/auth.go:501-546 | a charge is matched by an amount in the hands of the charging process |
| TaskProtocol.SubmitConserves | internal/app/tasks_chat_gallery_web.go:474-519 | an INSERT turns the charge into an open task, or into a refund when the row existed |
| TaskProtocol.PayConserves | internal/app/auth.go:547-579 | a refund pays off exactly what was owed |
| TaskProtocol.DeleteConserves | internal/app/pg_tasks.go:519-551 | deleting settled rows moves no quota |
| TaskProtocol.UpdatedRow | internal/app/pg_tasks.go:310-517 | no statement changes a row's N or owner, and a settlement refunds between nothing and N |
| TaskProtocol.StepKeepsWellFormed | internal/app/pg_tasks.go:310-517 | a row is running exactly while it carries a claim, no claim is on two rows, and every claim was drawn |
| TaskProtocol.LiveAfterWrite | internal/app/pg_tasks.go:376-517 | writing a row back changes the units of open tasks by that row's difference only |
| TaskRuns.SettledOnce | internal/app/pg_tasks.go:376-517 | under any clocks a row settles at most once: between two settlements of an id lie its deletion and a new submission; each refund is between 0 and N |
| TaskRuns.SettledIsFinal | internal/app/pg_tasks.go:376-517 | a settled row never changes while it exists |
| TaskRuns.ClaimGuards | internal/app/pg_tasks.go:362-421 | a worker statement changes a row exactly when the row carries the worker's claim, a failure with a blank claim aside |
| TaskRuns.LostClaimIsRefused | internal/app/pg_tasks.go:362-421 | under a lost claim heartbeat, complete, fail and requeue report no change and make none |
| TaskRuns.LostForever | internal/app/pg_tasks.go:310-421 | a lost claim stays lost in every continuation |
| TaskRuns.ClaimStaysPut | internal/app/pg_tasks.go:310-421 | a claim can leave its row but never moves to another one |
| TaskRuns.ClaimsAreRemembered | internal/app/worker.go:74-100 | a claim id once drawn is never forgotten, so it is not drawn again |
| TaskRuns.Fenced | internal/app/worker.go:74-100 | once a worker has lost its claim, no worker statement under that claim changes any row in any continuation |
| TaskRuns.RunKeepsGood | internal/app/pg_tasks.go:141-551 | every reachable state agrees with its history and is well formed |
| TaskRuns.SubmissionsTouchOneRow | internal/app/tasks_chat_gallery_web.go:474-519 | submissions of one task leave the table with the row of the first INSERT and nothing else |
| TaskRuns.SubmissionIsIdempotent | internal/app/tasks_chat_gallery_web.go:444-520 | any interleaving of submissions with one owner and task id leaves one row and a net charge of that row's N |
| TaskTimes.ClaimExcludes | internal/app/pg_tasks.go:310-374 | a row claimed or renewed at a reading keeps its claim for the ttl, in every run in which it meets nothing but claims read before that and heartbeats that do not shorten it |
| TaskTimes.TakenAgainIff | internal/app/pg_tasks.go:310-374 | a row whose worker has fallen silent can be taken exactly from the end of the ttl until the deadline, and timed out exactly from the deadline on |
| TaskTimes.RequeuedIsTakenIff | internal/app/pg_tasks.go:310-421 | a row put back in the queue can be taken exactly from the end of the delay until the deadline |
| TaskTimes.NewIsTakenIff | internal/app/pg_tasks.go:141-341 | a new row can be taken at once until its deadline, which is five minutes off when none was given |
| TaskTimes.SettledIsKept | internal/app/pg_tasks.go:376-551 | a task that has ended stays as it ended, with its images or its error text, until a purge whose cutoff is not before its end |
| TaskTimes.CancelReaches | internal/app/pg_tasks.go:423-482 | a cancellation reaches an open task exactly if it is the user's own, an admin's any |
| TaskHands.StepOfOther | internal/app/worker.go:74-100 | a step of another process leaves my charges, refunds, history and claims alone |
| TaskHands.OthersLeaveMeAlone | internal/app/worker.go:74-100 | any number of steps of others leave me with what I have in hand |
| TaskHands.OthersConserve | internal/app/worker.go:74-100 | any number of steps of others conserve every key |
| TaskService.OthersLeaveRow | internal/app/pg_tasks.go:310-551 | steps that do nothing but heartbeats to a row leave it open under its claim, with its owner and N |
| TaskHands.SettlingIsMine | internal/app/worker.go:233-248 | my settling statement puts exactly its refund into my hands |
| TaskHands.SubmittingIsMine | internal/app/tasks_chat_gallery_web.go:474-519 | my INSERT uses up my charge, and leaves a refund of it exactly when the row existed |
| TaskHands.SettlingBatch | internal/app/worker.go:292-303 | a batch I settle equals settling its rows one by one |
| TaskHands.DuesInHand | internal/app/worker.go:292-303 | after a batch I owe one whole refund per row of it |
| TaskHands.EndingsRefunded | internal/app/worker.go:292-303 | my history grows by one fully refunded settlement per row of the batch |
| TaskHands.NothingOpenIff | internal/app/tasks_chat_gallery_web.go:1027-1062 | nothing is left to cancel under an id exactly when neither it nor the id derived from it is an open task the user may see and, for a user, no open own task has it as client id |
| TaskService.ImageTaskService.RunDBImageTask | internal/app/worker.go:115-248 | on every exit no key gains or loses a unit, all refunds are paid and the task is settled at most once. While the claim is held, the store answers and the others at most heartbeat the row: no time left, missing or unreadable inputs, denied access, a broken generation or an unsaved image fail the task with N refunded; busy accounts put it back in the queue; otherwise it delivers min(N, images) files, those that were saved, with the rest of N refunded. Under any interference success means that ending, and so does a failure |
| TaskService.CalmEndings | internal/app/worker.go:115-248 | each of these endings, spelled out by what the outside world answered |
| TaskService.SilentWorkerIsReplaced | internal/app/pg_tasks.go:310-341 | from the end of a silent worker's ttl on and before the deadline the next claim takes its row, if nobody locks it and every other claimable row is younger |
| TaskService.ImageTaskService.Generate | internal/app/worker.go:133-248 | from the generation on, the same: busy goes back to the queue, broken fails, images are delivered exactly when all are saved |
| TaskService.ImageTaskService.SaveImages | internal/app/worker.go:180-231 | saves min(N, images) images under heartbeats, or stops: then what was saved is deleted, the task fails with its whole charge refunded exactly when a save failed, and nothing is settled only for a lost claim or a failing store; while all is calm it stops only by failing the task; no key gains or loses a unit |
| TaskService.ImageTaskService.Deliver | internal/app/worker.go:180-248 | from the generated images on: success exactly when all of them were saved and the row was completed under the claim; while all is calm an error is a recorded failure; no key gains or loses a unit |
| TaskService.ImageTaskService.Finish | internal/app/worker.go:233-248 | completion refunds the missing images and no key gains or loses a unit; while all is calm it does complete; it settles nothing and deletes the files only when the claim is lost or the store fails |
| TaskService.ImageTaskService.FailAndRefund | internal/app/worker.go:119-178 | while all is calm the failure is recorded; whenever it is, the whole charge is refunded, and no key gains or loses a unit |
| TaskService.ImageTaskService.TaskOwnerIdentity | internal/app/auth.go:94-115 | the refund goes to the task's owner; root exactly for the owner admin with the role admin, in any case and spacing, that is no key |
| TaskService.ImageTaskService.RefundImage | internal/app/auth.go:547-552 | pays the refund I owe and nothing for amounts below one; with nobody else at work the key's counters fall by exactly that refund; no key gains or loses a unit |
| TaskService.ImageTaskService.ConsumeImage | internal/app/auth.go:501-506 | a root identity is served without a charge, another one exactly when the charge is accepted, which is then in my hands; no key gains or loses a unit |
| TaskService.ImageTaskService.ClaimTask | internal/app/worker.go:74-100 | each claim uses a claim id never drawn before, which no other row carries, and takes an oldest claimable row; with a fresh claim id and a store that answers, no claim means no claimable row |
| TaskService.ImageTaskService.WorkOnce | internal/app/worker.go:74-100 | one round of the worker settles at most one task, leaves no refund unpaid, and no key gains or loses a unit; with a fresh claim id and a store that answers, it claims an oldest claimable task, if there is one, and brings it to the end it calls for if the others leave it alone |
| TaskService.ImageTaskService.ExpireOverdueDBTasks | internal/app/worker.go:292-303 | each task it times out is refunded in full, once, and no key gains or loses a unit; alone, it takes an oldest-first batch of 50 of the overdue rows |
| TaskService.ImageTaskService.CreateDBImageTask | internal/app/tasks_chat_gallery_web.go:444-520 | on every exit no charge is left open, no refund unpaid, and no key gains or loses a unit; a new task is reported exactly when this call created the row, which is the user's, queued, with what was asked for; alone, with a store that answers, the reply is the one the state calls for |
| TaskService.AcceptedIff | internal/app/tasks_chat_gallery_web.go:444-520 | a submission is accepted exactly when it has a prompt, is allowed, has stored inputs if it is an edit, has a new id and an owner, and its charge of 1 to 4 fits; it is answered with an existing task exactly when the user may see that one |
| TaskService.ImageTaskService.ChargeAndInsert | internal/app/tasks_chat_gallery_web.go:474-519 | from the charge on: a charge becomes the new row or goes back, so no key gains or loses a unit; alone, the reply is the one the state calls for |
| TaskService.ImageTaskService.InsertTask | internal/app/tasks_chat_gallery_web.go:494-519 | a charge that did not create a row goes back to the key, and no key gains or loses a unit; alone, accepted exactly when the row is new and insertable |
| TaskService.ImageTaskService.CancelOne | internal/app/tasks_chat_gallery_web.go:1031-1042 | the canceled task is refunded in full exactly when this call canceled it, and no key gains or loses a unit; otherwise, unless the store fails, there was nothing to cancel |
| TaskService.ImageTaskService.CancelByClient | internal/app/tasks_chat_gallery_web.go:1044-1056 | every task the fallback canceled is refunded in full, once, and no key gains or loses a unit; an empty answer, unless the store fails, means none was open |
| TaskService.ImageTaskService.CancelImageTasks | internal/app/tasks_chat_gallery_web.go:1027-1062 | exactly the tasks reported as canceled are refunded, each in full and once, and no key gains or loses a unit; alone, an id reported missing has nothing open under it and every other id is answered by a canceled task |
| AccountPool.BetterIsStrictOrder | internal/app/account_pool.go:154-183 | the comparator is a strict total order on the candidates of one pick |
| AccountPool.BestExists | internal/app/account_pool.go:154-186 | a nonempty candidate list has a best one |
| AccountPool.Candidates | internal/app/account_pool.go:110-153 | the rotating window yields exactly the eligible accounts, one candidate each, and notices an account blocked by upload quota alone |
| AccountPool.BestIsPick | internal/app/account_pool.go:154-190 | the best candidate is the unique best of all eligible accounts |
| AccountPool.PickMeans | internal/app/account_pool.go:154-190 | no eligible account is newer than the picked one; of the equally new none has more quota; then none fewer requests in flight, for uploads none more free uploads, none fewer uses, and none stands earlier in the walk from the index |
| AccountPool.WebServable | internal/app/account_pool.go:110-153 | a web request can be served exactly by accounts that are there, not excluded, healthy or past their limit, with quota, not codex, with room for the uploads and a free slot |
| AccountPool.CodexServable | internal/app/account_pool.go:110-153 | a codex request exactly by codex accounts of the wanted plan, or of one of the three paid ones, under the same conditions |
| AccountPool.NoneEligible | internal/app/account_pool.go:110-153 | no candidate means no eligible account |
| AccountPool.PickStaysUnderCap | internal/app/account_pool.go:139-187 | a pick never pushes the in-flight count past the cap |
| AccountPool.Choose | internal/app/account_pool.go:87-206 | picks the unique best of exactly the eligible accounts; an error, of the right kind, exactly when none is eligible |
| AccountPool.Pool.Pick | internal/app/account_pool.go:87-206 | takes one slot and the wanted reservation on the picked token for the caller and moves the index behind it; an error changes nothing |
| AccountPool.Pool.ReleaseToken | internal/app/account_pool.go:208-216 | gives back one slot of a holder; counts stay equal to the slots held, and no zero is kept |
| AccountPool.Pool.RetainToken | internal/app/account_pool.go:232-240 | takes one more slot for the holder |
| AccountPool.Pool.ReleaseUploadReservation | internal/app/account_pool.go:218-230 | gives back part of a holder's reservation; counts stay equal to what is reserved |
| AccountPool.Pool.ActiveCount | internal/app/account_pool.go:242-246 | the count is the number of slots held on the token |
| AccountPool.Pool.IdleIsEmpty | internal/app/account_pool.go:208-240 | when nobody holds anything both maps are empty |
| AccountPool.TakingTallies | internal/app/account_pool.go:186-192 | taking keeps the maps equal to what is outstanding |
| AccountPool.GivingTallies | internal/app/account_pool.go:208-230 | handing back what was taken never drives a count below zero and keeps the maps equal to what is outstanding |
| Rotation.LapVisitsOnce | internal/app/account_pool.go:110-111 | one lap of the window visits every position exactly once, from any start |
| Accounts.ReservationsFit | internal/app/upload_quota.go:133-148 | enough quota means that the new reservation fits beside the ones already made |
| Accounts.AccountStore.MarkAccountUploadSuccess | internal/app/account_state.go:253-277 | the first record with the token loses the uploads, floored at zero; running out fills in the missing limit data; other records stay |
| AccountLeases.LeaseTable.Acquire | internal/app/pg_tasks.go:557-608 | grants within the lease cap and the upload bound after a sweep; a refusal leaves the table, sweep included, unchanged |
| AccountLeases.GrantedIff | internal/app/pg_tasks.go:557-608 | a lease is granted exactly when fewer leases on the token than allowed are unexpired at the reading and its uploads fit beside theirs |
| AccountLeases.GrantLasts | internal/app/pg_tasks.go:557-635 | a granted lease stays in the table, as asked for, in every run with readings before the end of its term that does not release it; a sweep drops it exactly from the end of the term on |
| AccountLeases.LeaseTable.SumWeights | internal/app/pg_tasks.go:584-588 | the sum of the upload weights of one token's rows |
| AccountLeases.LeaseTable.Release | internal/app/pg_tasks.go:610-617 | removes exactly the named lease |
| AccountLeases.LeaseTable.Sweep | internal/app/pg_tasks.go:619-635 | removes exactly the leases expired at the reading |
| AccountLeases.CapacityHolds | internal/app/pg_tasks.go:557-617 | at any time not before the readings used, no token has more unexpired leases than the bound, counting each from its reading for the term it was asked for, however out of order the clocks were |
| AccountLeases.FastClockOvergrants | internal/app/pg_tasks.go:573-581 | for every bound and every earlier time a fast clock can lead to one lease more than the bound, so the condition is needed |
| AccountLeases.RunKeepsCap | internal/app/pg_tasks.go:557-617 | no run puts more rows on a token than the bound, and a held lease without a row has expired |
| UploadLeases.NoOverCommit | internal/app/pg_tasks.go:588-601 | in every run the uploads lease holders have still to make are covered by the account's remaining upload quota, provided no snapshot used for a lease promises more than the record has |
| UploadLeases.UploadIsCounted | internal/app/account_state.go:253-277 | each such upload lowers the quota by exactly one, so the floor at zero hides nothing |
| UploadLeases.GrantFits | internal/app/image_pool.go:299-319 | a lease is granted only if its uploads fit beside those already promised |
| UploadLeases.GrantHasRoom | internal/app/image_pool.go:299-319 | a lease is granted only while fewer than the configured number on the account are unexpired, and runs for the term asked for |
| UploadLeases.SafeSnapshotIff | internal/app/image_pool.go:299-319 | every lease taken with a snapshot keeps the promises exactly when the snapshot promises no uploads or not more than the record still has: it may be stale, but not above the record, and not negative |
| UploadLeases.StaleSnapshotOverCommits | internal/app/image_pool.go:308-318 | a snapshot with one upload left, taken before another holder made that upload, is not safe |
| ImageAttempts.AttemptScope.constructor | internal/app/image_pool.go:29-34 | the budget is at least one attempt |
| ImageAttempts.AttemptScope.Reserve | internal/app/image_pool.go:58-71 | a token is accepted exactly when it is new and the budget is not used up; the list of attempts repeats no account under its token or a recorded alias |
| ImageAttempts.AttemptScope.Alias | internal/app/image_pool.go:73-82 | the token an attempt goes under counts as tried |
| ImageRoutes.ImageService.AcquireLease | internal/app/image_pool.go:299-319 | the answer is the one that the rows of the lease table call for at that moment; either the lease is held or nothing was taken |
| ImageRoutes.ImageService.ReleaseSelected | internal/app/image_pool.go:227-235 | hands back the slot, the alias slot and the reservation of one selection |
| ImageRoutes.ImageService.LeaseAndGenerate | internal/app/image_pool.go:236-287 | on every exit after the setup slot, alias, reservation and lease are handed back, and the verdict is the one that the lease table, the context and the outcome call for: the lease cap and a failing table lead on to another account (RouteHasReason) |
| ImageRoutes.ImageService.AbandonSetup | internal/app/image_pool.go:185-220 | on every exit after a failed setup slot and reservation are handed back |
| ImageRoutes.ImageService.Turn | internal/app/image_pool.go:158-287 | one turn: an expired context ends the route, no eligible account reports the latest problem, otherwise one attempt is made on an account picked from outside the tried ones and ends as the lease table and the outside answers call for |
| ImageRoutes.ImageService.PickAccount | internal/app/image_pool.go:162-173 | the unique best of the eligible untried accounts in the state of the pool at that moment, or the right refusal when there is none |
| ImageRoutes.ImageService.UseAccount | internal/app/image_pool.go:184-287 | whatever happens in an attempt, everything it took is handed back, and it ends as the setup, the lease table and the outcome call for |
| ImageRoutes.ImageService.NextTurn | internal/app/image_pool.go:158-287 | a turn that is retried adds one to the attempts and the budget used; one that returns explains the outcome of the route |
| ImageRoutes.ImageService.GenerateRoute | internal/app/image_pool.go:149-289 | under any interference nothing is held at the end and the budget bounds the attempts; the outcome is the one its attempts call for; a route that ends as busy, as uploads reserved, with a lease error or with a retryable problem has spent its budget or has no untried eligible account |
| ImageAttempts.RouteHasReason | internal/app/image_pool.go:149-289 | a route with budget and accounts left ends only with images, an ended context, a cancellation or an upstream error that no other account would cure |
| ImageAttempts.RetriedHasReason | internal/app/image_pool.go:184-287 | the problem a route keeps in mind is one of its latest attempt for which another account is tried |
| ImageRoutes.ImageService.GenerateRoutes | internal/app/image_pool.go:117-147 | all routes share one budget; they are tried in order, each but the latest failed with a problem that calls for the next; the result is the latest route's, or the first problem when the latest is only a missing codex account; it ends with images, a problem that rules out the next route, or no route left to try |
| ImageAttempts.GivesUpEarly | internal/app/image_pool.go:117-147 | a request with its context alive gives up before its last route only for a problem no other route would cure, or when a codex route has no account |
| ImageRoutes.ImageService.Enter | internal/app/image_pool.go:174-222 | a picked token is always accepted, and exactly it and the token it is used under are left out from then on |
| ImageAttempts.SameAccountTwice | internal/app/image_pool.go:58-222 | after an attempt that is retried, an account that a refresh has renamed is picked and accepted a second time exactly when the attempt was not set up under the new token |
| ImageAttempts.SetupFailedTwice | internal/app/image_pool.go:184-199 | the failing case: a busy setup after a refresh is followed by a second attempt on the same account |
| ImageAttempts.UntrimmedIsPickedAgain | internal/app/image_pool.go:58-71 | an account whose token is not stored trimmed is picked again after its attempt, refused by the scope and handed back, which spends no budget and leaves the pool as it was |
| ImageAttempts.OneMoreFailed | internal/app/image_pool.go:131-143 | a missing codex account never hides the first problem, any other problem replaces the one before |
| ImageAttempts.PickedHas | internal/app/image_pool.go:162-173 | after a pick the request holds one slot and its reservation on the token |
| ImageAttempts.AcquireKeepsOnly | internal/app/pg_tasks.go:557-608 | of a request's leases at most the one it holds is in the table |
| ImageBatch.Collect | internal/app/image_pool.go:415-443 | an expired context wins, then the first error that must not be swallowed; any image beats the rest; else the last error |
| ImageBatch.FirstsAre | internal/app/image_pool.go:421-424 | the images kept are the first of every result that has one |
| ImageBatch.FirstsInOrder | internal/app/image_pool.go:421-424 | the images kept are in the order of their results, one from each result that has one |
| ImageBatch.LastErrorIs | internal/app/image_pool.go:425-427 | the last error is the one with none after it |
| ImageBatch.FirstBlockingIs | internal/app/image_pool.go:427-430 | the blocking error is the first that must not be swallowed |
| ToolSieve.ToolMarkupIndex | internal/app/v1.go:1099-1108 | the first position at which any marker starts, or -1 |
| ToolSieve.MarkersAre | internal/app/v1.go:1099-1112 | a marker is one of three tags in any letter case; the fourth name extends one of them |
| ToolSieve.StreamableToolText | internal/app/v1.go:1067-1093 | the visible text up to the cut, and whether a marker is complete |
| ToolSieve.VisibleIs | internal/app/v1.go:1067-1093 | what is shown is the text itself, or what stands before the cut without the blanks in front of it |
| ToolSieve.CutMovesRight | internal/app/v1.go:1067-1093 | the cut never moves left when text is appended |
| ToolSieve.CutIsExact | internal/app/v1.go:1067-1093 | a prefix is safe against every continuation exactly when it ends at or before the cut: nothing is withheld needlessly |
| ToolSieve.CutIsFirstMarker | internal/app/v1.go:1067-1071 | with a complete marker the cut is the first one |
| ToolSieve.HeldEarly | internal/app/v1.go:1072-1092 | a marker's position is held as soon as its first character arrived, however it is split into chunks |
| ToolSieve.VisibleGrows | internal/app/v1.go:1067-1093 | the right-trimmed output only grows by extension |
| ToolSieve.SendsOn | internal/app/v1.go:855-875 | each delta keeps what was sent up to date with the text before the cut |
| ToolSieve.SentIsNeverMarkup | internal/app/v1.go:843-875 | what was sent ends before the first marker of the text and of every continuation of it |
| ToolSieve.StreamAnthropicEvents | internal/app/v1.go:843-875 | what was sent is the text before the cut up to trailing blanks, the whole text when nothing is withheld or there are no tools; no empty delta is sent |
| DomainBlacklist.NormalizeTwice | register-executor/services/register/mail_provider.py:218-222 | a normalised domain normalises to itself exactly when no white space hides inside its dots |
| DomainBlacklist.NormalizeMeans | register-executor/services/register/mail_provider.py:218-222 | a domain is known by its lower-case form, given alone, with a dot behind it or as the end of a mail address |
| DomainBlacklist.SpaceFreeStays | register-executor/services/register/mail_provider.py:218-222 | which holds for every text without white space |
| DomainBlacklist.EntryRoundTrip | register-executor/services/register/mail_provider.py:239-327 | the file form of a blocked entry reads back as that entry exactly when it is manual with a reason or has one of the two known sources, and its fields are clean |
| DomainBlacklist.SaveThenLoad | register-executor/services/register/mail_provider.py:277-346 | saving and loading is the identity on faithful entries, in whatever order they are listed |
| DomainBlacklist.ReloadIsExact | register-executor/services/register/mail_provider.py:277-346 | whatever was saved, a blocked entry comes back unchanged exactly when it is faithful |
| DomainBlacklist.StepIsExact | register-executor/services/register/mail_provider.py:379-486 | what the next load sees is exactly what the operation made of what the last load saw, for files of either shape |
| DomainBlacklist.RunStaysRegular | register-executor/services/register/mail_provider.py:379-486 | from a regular file of either shape, every file reached through the operations with the two sources can be saved and loaded without loss |
| DomainBlacklist.NamedEntryIsRegular | register-executor/services/register/mail_provider.py:277-334 | a domain of the older list file loads as an entry that its file form reads back as |
| DomainBlacklist.AutoStaysBlocked | register-executor/services/register/mail_provider.py:379-463 | an automatic block keeps its source, provider and hit count through any run of manual operations |
| DomainBlacklist.ReplaceIsExact | register-executor/services/register/mail_provider.py:416-443 | after a replacement the manual domains are exactly the given ones |
| DomainBlacklist.ManualIsExact | register-executor/services/register/mail_provider.py:379-486 | after each operation exactly the domains are manual that it calls for |
| DomainBlacklist.AddMeans | register-executor/services/register/mail_provider.py:379-393 | the named domain becomes manual and keeps its automatic block, hits and first sight; no other entry changes |
| DomainBlacklist.RemoveMeans | register-executor/services/register/mail_provider.py:396-413 | the named domain stays exactly if it is blocked automatically, and is no longer manual; no other entry changes |
| DomainBlacklist.ResetMeans | register-executor/services/register/mail_provider.py:446-463 | entries stay exactly if they were not manual or are blocked automatically, and none is manual |
| DomainBlacklist.RecordMeans | register-executor/services/register/mail_provider.py:466-486 | the named domain is blocked under the source with one more hit and keeps its manual mark; no other entry changes |
| DomainBlacklist.RecordLasts | register-executor/services/register/mail_provider.py:466-486 | recording a domain that is not manual lasts beyond the next load exactly for the two known sources |
| BlacklistFile.BlacklistFile.Load | register-executor/services/register/mail_provider.py:277-334 | the entries the file describes, for each of its shapes |
| BlacklistFile.BlacklistFile.Save | register-executor/services/register/mail_provider.py:337-346 | the file lists the views of exactly the blocked entries |
| BlacklistFile.BlacklistFile.AddDomain | register-executor/services/register/mail_provider.py:379-393 | marks the domain manual and keeps its automatic block; says whether the file changed |
| BlacklistFile.BlacklistFile.RemoveDomain | register-executor/services/register/mail_provider.py:396-413 | takes the manual mark away; the entry stays only if it is blocked automatically |
| BlacklistFile.BlacklistFile.ReplaceDomains | register-executor/services/register/mail_provider.py:416-443 | marks the given domains and takes the mark from all others |
| BlacklistFile.BlacklistFile.ResetDomains | register-executor/services/register/mail_provider.py:446-463 | takes the mark from every manual domain and counts them |
| BlacklistFile.BlacklistFile.RecordDomain | register-executor/services/register/mail_provider.py:466-486 | blocks the domain automatically, counts the hit, and says whether that is new |
| MailboxPool.CleanFixes | register-executor/services/register/mail_provider.py:1983-1984 | cleaning twice is cleaning once; exactly the texts without outer white space, byte-order marks and hard spaces are clean |
| MailboxPool.FirstSeparator | register-executor/services/register/mail_provider.py:1993-1996 | a field ends at the first separator exactly when it holds none and does not end in a dash; otherwise it is cut short |
| MailboxPool.LineRoundTrip | register-executor/services/register/mail_provider.py:1992-2001 | a line reads back as its credential exactly when the fields are clean, the required ones present and the first three separable |
| MailboxPool.ReadBackIff | register-executor/services/register/mail_provider.py:1992-2001 | a line reads back exactly if every part is tidy, the email has an @, client id and token are there, and the first three parts hold no four dashes and end in none |
| MailboxPool.FormatIs | register-executor/services/register/mail_provider.py:1992-2001 | a line is email, password, client id and token in this order with four dashes between |
| MailboxPool.SplitJoin | register-executor/services/register_service.py:70-73 | splitting undoes joining for single nonempty lines |
| MailboxPool.PoolRoundTrip | register-executor/services/register_service.py:70-73 | parsing undoes serializing exactly for pools of portable credentials with distinct emails |
| MailboxPool.ParseOutlookCredentials | register-executor/services/register/mail_provider.py:1987-2006 | the first usable credential of each email, in the order of the lines |
| MailboxPool.ParsedIsPortable | register-executor/services/register/mail_provider.py:1987-2006 | a parsed credential is portable exactly when none of its first three fields ends in a dash |
| MailboxPool.MergeOutlookPool | register-executor/services/register_service.py:76-83 | the text of the old pool overridden and extended by the new one |
| MailboxPool.MergedIs | register-executor/services/register_service.py:76-83 | the merged pool has every new credential, the old ones whose email is not among the new, and no email twice |
| MailboxPool.SameKeyIff | register-executor/services/register/mail_provider.py:1987-2006 | two emails are taken for the same exactly if they differ only in the case of letters |
| MailboxPool.MergedReadsBack | register-executor/services/register_service.py:76-83 | the merged text reads back as the merged pool exactly when no separating field ends in a dash |
| MailboxMerge.MergeTwice | register-executor/services/register_service.py:70-83 | for pools whose lines are all read under their own email, importing the same text again changes nothing exactly when reading back keeps the line of every credential that is not imported anew; passwords and client ids may end in a dash |
| MailboxMerge.ReadsUnder | register-executor/services/register/mail_provider.py:1992-2001 | a readable line is read under its own email exactly when the email does not end in a dash |
| MailboxMerge.PutTwice | register-executor/services/register_service.py:76-83 | whatever a credential's line is read as, putting it in again leaves the pool as it was, adds one entry, or moves it to the end, and exactly when which |
| MailboxMerge.ImportTwiceIff | register-executor/services/register_service.py:70-83 | importing one credential into a pool without dashes a second time changes nothing exactly when its email does not end in a dash or is read as one the pool has, or, for a line that cannot be read, when its place is at the end |
| MailboxMerge.FirstImportTwiceIff | register-executor/services/register_service.py:70-83 | into an empty pool: exactly when the email does not end in a dash or the line cannot be read |
| MailboxMerge.DashedEmailIsDoubled | register-executor/services/register_service.py:76-83 | for an email that ends in a dash, importing the same line again adds a second account |
| RegisterRun.BumpAdds | register-executor/services/register_service.py:190-194 | a bump raises the sum of the failure reasons by its amount |
| RegisterRun.ReasonsAreTold | register-executor/services/register_service.py:186-194 | a reason without outer white space is its own key, a blank one is unknown |
| RegisterRun.BumpsOne | register-executor/services/register_service.py:190-194 | a bump raises the count of its reason alone |
| RegisterRun.RecordResult | register-executor/services/register_service.py:1224-1243 | one finished future is counted as done and once as success, failure or uncounted stop, under the reason of its result; a second time as a failure, under the error raised, exactly when recording its statistics raises |
| RegisterRun.CancelPendingFutures | register-executor/services/register_service.py:1171-1178 | splits the futures into those still running and the number canceled |
| RegisterRun.StopByUser | register-executor/services/register_service.py:1250-1269 | a user's stop cancels what has not started, once, and counts it as done and as nothing else |
| RegisterRun.StopForStall | register-executor/services/register_service.py:1270-1297 | a stall counts what has not started as failures under the stall reason and changes no other counter |
| RegisterRun.Submit | register-executor/services/register_service.py:1298-1306 | exactly as many submissions as the checks admit, one after the other: each while enabled, not stopped, below the target and with a free thread, and the next check fails one of these |
| RegisterRun.GrownIs | register-executor/services/register_service.py:1298-1306 | k submissions add the next k futures and change nothing else |
| RegisterRun.GrownIsSound | register-executor/services/register_service.py:1298-1306 | admitted submissions keep the books and never exceed the threads |
| RegisterRun.Settle | register-executor/services/register_service.py:1320-1327 | every finished future is settled exactly once, under the result it was given |
| RegisterRun.Turn | register-executor/services/register_service.py:1247-1331 | one turn, in full: a stop or a stall cancels what has not started and submits nothing, any other turn submits exactly what the checks admit; every outstanding future that has finished is settled; the run ends exactly when no future is left and nothing is waited for |
| RegisterRun.Run | register-executor/services/register_service.py:1202-1332 | the run is the turns one after the other from the empty start; at every loop head submitted is done plus running futures, futures fit the threads, each counter and each failure reason is what the settled results and a stall make it, submissions stay within the total; at the end all submitted are done; the plain law holds exactly when recording statistics raised for no settled result |
| RegisterRun.SmoothRunCompletes | register-executor/services/register_service.py:1202-1332 | a run in total mode without a stop or a stall, once ended, has done exactly the total |
| RegisterRun.PlainAccounting | register-executor/services/register_service.py:1224-1327 | done is success plus fail plus uncounted stops plus user cancels exactly when recording the statistics raised for no settled result |
| RegisterRun.EachCountsOnce | register-executor/services/register_service.py:1224-1327 | over any history, settled results plus statistics errors are successes plus failures plus uncounted stops |
| RegisterRun.CountersCount | register-executor/services/register_service.py:1202-1243 | success, usable and saved are the numbers of settled results of these kinds |
| RegisterRun.FailuresCount | register-executor/services/register_service.py:1202-1327 | failures are the failed, raising and stalled workers, the futures a stall cancelled, and the errors of recording statistics |
| RegisterRun.RejectedDomainCountsTwice | register-executor/services/register_service.py:1224-1327 | the failing case: a rejected domain whose blacklist write raises is one future done and two failures |
| RegisterRun.RecordsBalance | register-executor/services/register_service.py:1224-1327 | counting one more result keeps the books balanced and the failures under their reasons |
| ImageEvictor.ImageStorage.CleanupStorageLimit | internal/app/images.go:178-246 | removes the shortest oldest-first prefix of the removable files that brings usage within the limit, or all of them; the total drops by exactly the bytes removed |
| ImageEvictor.ImageStorage.EvictFrom | internal/app/images.go:217-230 | the removal loop stops as soon as the limit is met and skips protected and unremovable files |
| ImageEvictor.ShortestPrefixMeans | internal/app/images.go:217-230 | no protected file goes, none that goes was created after a candidate that stays, ties go by name, and one file fewer would not have done |
| ImageEvictor.SortSorts | internal/app/images.go:208-213 | the files are put oldest first, ties by name, and none is lost |
| ImageEvictor.StringOrder | internal/app/images.go:208-213 | the name comparison is a strict total order |
| ImageEvictor.StringLessIs | internal/app/images.go:208-213 | the first place where two names differ decides, and a name comes before its extensions |
| ImageEvictor.LimitIsExact | internal/app/images.go:183-186 | the 64-bit limit is the configured one below eight exbibytes |
| RefreshCursor.AutoRefresh.NextAutoRefreshTokens | internal/app/watcher.go:98-125 | a batch starting at the cursor, which moves behind it; the whole list for a batch size that leaves nobody out |
| RefreshCursor.EligibleAre | internal/app/watcher.go:98-108 | exactly the trimmed tokens of the accounts that have one and are not to be deleted are listed, in the order of the accounts |
| RefreshCursor.BatchIsDistinct | internal/app/watcher.go:119-123 | one batch names different positions |
| RefreshCursor.CoversIff | internal/app/watcher.go:113-124 | from any cursor, consecutive calls cover every account exactly when they name at least as many positions as there are accounts |
| RefreshCursor.CursorAfterIs | internal/app/watcher.go:113-118 | after some calls the batch stands that many batch sizes ahead |

## Left out

- TaskService.ImageTaskService.SaveImages: image files are a list of names; that deleting a file can fail is not modelled.
- TaskService.ImageTaskService.RunDBImageTask: the heartbeat goroutine of worker.go:250-290 appears only as heartbeats before each saved image and as a context that ends generation; its statement is covered as a step of the protocol.
- ImageRoutes.ImageService.GenerateRoute: the account records that success and failure update (markAccountSuccess, markAccountFailure) are read afresh at every attempt, not computed; releasing a lease is taken to succeed.
- MailboxMerge.MergeTwice: pools with an email that ends in a dash or with a line that cannot be read; for those ImportTwiceIff is exact for one imported credential and a pool without dashes, and imports of several such credentials at once are open.
- UploadLeases.NoOverCommit: under safe snapshots (SafeSnapshotIff is exact) and uploads made while leased; the retry loop itself reads the snapshot before it asks for the lease.
- RegisterRun.Run: statistics per provider and domain, elapsed times and the published copy of the counters; that recording statistics raises is part of a result.
- DomainBlacklist.SaveThenLoad: the order of the saved list is any order; JSON values that are not strings, booleans or integers are not modelled.
- TaskTable.PGTaskStore.CreateTask: rows are created queued; model, size, resolution, format and content checks are not columns here. Owner and task ids are stored as given.
- TaskService.ImageTaskService.TaskOwnerIdentity: the owner id is compared as stored; trimming it is not modelled, which matters only for a key id with outer white space.
- Daily and monthly conservation: false across a period boundary; only bounds are proved for those counters.
- Admin resets, quota edits, key deletion and account refresh overwrites rewrite counters by design and are outside the ledger runs.
- The local JSON task store: its restart recovery marks tasks as errors without refunding, so conservation is stated for the PostgreSQL path.
- The chat quota path is covered by the counter bounds only.
- HTTP, JSON, multipart and SSE handling, the web interface, logging, tracing and upstream network calls.
- Error-text classifiers and the size and prompt tables: classification is part of what the oracles answer.
- Re-emission in streamResponseEvents and handleV1ChatCompletions, JSON tool-call spans, XML and regular expressions.
- Lower-casing and length of non-ASCII text in the sieve and in domains and emails.
- Storing file-lock conflicts and torn JSON writes: each update is one atomic step.
- Mail provider clients and openai_register, which is not part of this model: worker results are an oracle.
