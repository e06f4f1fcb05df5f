# OptScale background workers: a verified model

OptScale runs its recommendations, clean-ups, migrations, schedules and reports in
background workers. This project models the stateful ones and proves what they promise.
Queues, object stores and databases are maps, sets and sequences; a call into a service may
raise, and a worker may die between its effects and the acknowledgement of its message.

Check everything with `dafny verify dfyconfig.toml`.

## The parts

* **Recommendation pipeline** (`Bumi*.dfy`). A parent task walks a table of states, fans out
  child tasks three times and waits each time until as many results are stored as children
  were created. `BumiSteps` says what one delivery does; `BumiWorker` is the imperative form,
  proved to do that; `BumiDelivery`, `BumiGates` and `BumiEffects` hold the laws of single deliveries;
  `BumiProgress` the termination measure; `BumiSystem` and `BumiRuns` whole runs with
  redelivery, crashes and other runs; `BumiLimits` where the promises end; `BumiNames` the
  object names. Assumptions: the enabled modules do not change during a run (a concrete run
  shows what happens otherwise, and `BumiGates.BarrierWithOtherModules` when it is harmless),
  one run per organization is active, and the delayed queue holds a message for two seconds.
  A phase whose results do not fit one listing page never opens its barrier.
* **Mongo cleaner** (`CleanerTypes`, `CleanerRun`, `Cleaner`). Rows of deleted owners are
  deleted in chunks under one budget per collection; raw expenses are first appended to
  numbered, size-bounded archive files. Every external call may end the run, in the middle of
  an append or of a deletion too.
* **Power schedules** (`PowerSchedule`). Which trigger an evaluation acts on, over consecutive
  evaluation windows.
* **Mongo migrator** (`Migrator`). Upgrades, downgrades and crashes over a recorded set.
* **Report pipeline** (`Katara`, `KataraRuns`, `KataraWorker`). A state machine whose state is
  held by the API, with recipient de-duplication and a fan-out.
* **Smaller cores.** `Gemini`: grouped duplicate statistics against counting object by object.
  `StreamAdapter`: a file-like reader over an iterator. `EtcdTree`: writing, reading and
  merging nested structures. `YearSlices`: slicing a date range by years. `Bailiff`:
  subscription grace periods over repeated checks.

Classes follow the source's objects: their methods update fields and are proved against
specification functions or relations, and the lemmas are about those. Failures are explicit:
environments number the external calls of a delivery and say which one raises.

## Where the code and its promises part

* A failed archive read lets a parent skip the archive gate, because the state advances before
  anything is read: `BumiGates.ArchiveGateExact` says exactly when, `BumiLimits` shows a case.
  The gates judge what they read; `BumiRuns.GateSafety` says what that means for what is
  stored, for reads that show it.
* A schedule evaluation that missed several triggers acts on the earliest of them once the
  first trigger of the day has passed, although the source's own comments speak of the nearest
  one: `PowerSchedule.LatestMissedIff`. A schedule with a single trigger fires twice exactly
  when it falls on a boundary, `PowerSchedule.SingleTriggerFirings`, and the worker's own
  windows overlap a little: `PowerSchedule.TwiceIffBetween`.
* Creating report children and completing their parent are two calls, so a retry can create
  the children again: when the creation raises after taking effect, or the completion raises
  without effect, `KataraRuns.RecreatesIff`. In the same way a report can be posted twice,
  `KataraRuns.PostedTwiceIff`; and one whose posting raised is not posted later unless the
  completion raised as well, `KataraRuns.NotPostedAgainIff`.
* A slice of a budget's span can have 366 days when the end is not an end of day:
  `YearSlices.SliceTimePeriodByYears`.
* The example in the cross matrix's docstring has a zero on the diagonal for a bucket that
  holds objects; the code puts the number of the bucket's objects there.

## Model

| member | source | states |
|---|---|---|
| `BumiRuns.BarrierSafety` | bumiworker/bumiworker/tasks.py:341-353 | in every state reachable from a fresh run, under any interleaving, redelivery, retry, crash before the ack or activity of other runs, a parent that a wait step lets through has a stored result for every module of that phase |
| `BumiRuns.BarrierExact` | bumiworker/bumiworker/tasks.py:329-353 | in every reachable state, with reads that show what is stored, a parent passes a barrier if and only if a result of every module of the phase is stored and fits one page, its wait is in time, the listing does not raise, and a failed publication is retried |
| `BumiRuns.ResultsStay` | bumiworker/bumiworker/tasks.py:576-589 | a parent beyond a barrier never again meets a bucket that lacks one of that phase's results, cleanups included |
| `BumiRuns.FinishedPipelines` | bumiworker/bumiworker/transitions.py:9-22 | a parent found at UPDATED_CHECKLIST has a history of deliveries that took all nine stages in order, each meeting its condition and the checklist completed (unless the organization has no recommendation modules); where a gate read what was stored, no recommendation stored then was a timeout, and no archive result stored then erroneous unless a call of that step raised and its retry went on |
| `BumiRuns.GateSafety` | bumiworker/bumiworker/tasks.py:399-453 | in every reachable state, with reads that show what is stored: a parent leaves the collect gate exactly when every recommendation module has a stored result that is no timeout, it is in time and no call before the outcome raised; and the archive gate exactly when every archive result is stored without an error, or a call raised before an erroneous one was read and the retry is published |
| `BumiRuns.DeliveryConserves` | bumiworker/bumiworker/tasks.py:114-139 | a delivery that is acknowledged keeps the number of live parent messages plus ended parents |
| `BumiRuns.InitHasOneParent` | bumiworker/bumiworker/main.py:58-68 | a scheduled run starts with one live parent message |
| `BumiRuns.OneLiveParent` | bumiworker/bumiworker/tasks.py:103-139 | without crashes there is exactly one live parent message until the parent ends, over any run |
| `BumiRuns.ParentsEndWell` | bumiworker/bumiworker/tasks.py:173-188 | while the error handlers can publish, parents end only in UPDATED_CHECKLIST or ERROR; in any run, a parent that ends without raising has written last_completed |
| `BumiRuns.ParentDeliveriesAreBounded` | bumiworker/bumiworker/tasks.py:90-109 | over any run without crashes the parent is delivered at most a bounded number of times, whatever fails and however children interleave |
| `BumiSystem.EventKeepsInv` | bumiworker/bumiworker/main.py:74-99 | every delivery, crash and outside change keeps the system invariant: well-formed messages and bucket, every parent message the scheduled one or the outcome of a sound history whose results are still stored, the checklist completed behind UPDATED_CHECKLIST and behind every normal ending |
| `BumiSystem.ReachedInv` | bumiworker/bumiworker/main.py:74-99 | the invariant holds after every legal run |
| `BumiSystem.ChildNeverCompletes` | bumiworker/bumiworker/tasks.py:592-601 | last_completed changes only by a parent's delivery and only to that run's timestamp, also when the delivery dies half way |
| `BumiSystem.FailingCompletes` | bumiworker/bumiworker/tasks.py:592-601 | a failed parent whose last step does not raise has written last_completed |
| `BumiSystem.ChildPublishesItself` | bumiworker/bumiworker/tasks.py:529-601 | everything a child's delivery publishes is a message of that same child |
| `BumiDelivery.DeliverKeeps` | bumiworker/bumiworker/tasks.py:285-304 | a delivery writes only keys of fanned-out modules of its own run, removes none of them, and publishes only well-formed bodies of its run |
| `BumiDelivery.OwnNamesAreKept` | bumiworker/bumiworker/tasks.py:576-588 | an object whose name carries the run's timestamp is never on Cleanup's list |
| `BumiDelivery.OneContinuation` | bumiworker/bumiworker/tasks.py:103-188 | each delivery publishes at most one continuation of its own task, and exactly when that happens: always for a non-terminal step unless the handler's publish fails too |
| `BumiEffects.FanOutMakesChildren` | bumiworker/bumiworker/tasks.py:277-326 | a fan-out delivery publishes for every module at most as many child messages as it is installed and not disabled, exactly as many when the parent moves on, and then the parent carries the number of all children; each child is a new task with the parent's organization, run, checklist and limits, no retry used and the clock started; recommendations are only gone around when every module is disabled |
| `BumiEffects.ChildStores` | bumiworker/bumiworker/tasks.py:513-573 | a child at work stores one object, under its own key, unless a call up to the upload raises: with a set timeout if and only if it came too late, with a set error if and only if it was in time, its module enabled, and the module threw or returned a non-empty text, which is the error stored |
| `BumiEffects.FailuresStopTheGate` | bumiworker/bumiworker/tasks.py:383-453 | while what a failed or late archive child stored is in place, a parent with current reads does not pass the archive gate unless a call of the gate raised first and was retried; nor the collect gate after a late recommendation |
| `BumiEffects.CleanupDeletes` | bumiworker/bumiworker/tasks.py:576-589 | a child that stored its result deletes exactly the listed objects of its organization in whose names the run's timestamp does not occur, and changes nothing else |
| `BumiEffects.OthersLeaveBucket` | bumiworker/bumiworker/tasks.py:261-488 | no other delivery, of a parent or a child, changes the bucket |
| `BumiEffects.TooLateFails` | bumiworker/bumiworker/tasks.py:90-170 | a task that comes too late for its step fails for that reason whatever retries are left, a wait with its clock started anew |
| `BumiEffects.NextIsDue` | bumiworker/bumiworker/tasks.py:90-185 | the next message of a task that is in time: due at once with the clock reset, or after the delay for a wait; after a call that raised, with one more retry, or failed when none was left |
| `BumiEffects.NextStateIs` | bumiworker/bumiworker/transitions.py:9-36 | a delivery in which nothing raises takes the task on: by the table, except for a wait that stays and a gate that fails it |
| `BumiEffects.PutBackUnchanged` | bumiworker/bumiworker/tasks.py:173-188 | a terminal step that failed is put back as it was, after the delay |
| `BumiProgress.MeasureDecreases` | bumiworker/bumiworker/tasks.py:90-185 | every continuation lowers, lexicographically, stages left, retries left, time to the wait deadline; the restart of the wait clock is paid for by a retry |
| `BumiProgress.ChainsAreBounded` | bumiworker/bumiworker/tasks.py:90-185 | a chain of deliveries of one task, each of what the one before published, is no longer than an explicit bound |
| `BumiGates.CountsImplySets` | bumiworker/bumiworker/tasks.py:341-353 | with as many distinct listed objects as modules, every module has an object if and only if no object is of a module outside the list |
| `BumiGates.BarrierWithOtherModules` | bumiworker/bumiworker/tasks.py:341-353 | a barrier that opens after the modules changed since they were counted has every present module's result in sight if and only if no listed object is of a module that is gone |
| `BumiGates.BarrierTestExact` | bumiworker/bumiworker/tasks.py:345-352 | the count test holds if and only if every module has a listed result and the modules fit one listing page |
| `BumiGates.WaitGate` | bumiworker/bumiworker/tasks.py:341-353 | a wait step that moves on left no module of its folder without a stored result |
| `BumiGates.WaitGateExact` | bumiworker/bumiworker/tasks.py:329-353 | a parent delivery leads through a barrier if and only if the wait is in time, as many objects are listed as were counted, the listing does not raise, and a failed publication is retried |
| `BumiGates.CollectGateExact` | bumiworker/bumiworker/tasks.py:383-428 | a parent delivery leads from the collect gate to the next state if and only if it is in time, no listed result is a timeout, and no call raised before the outcome was known, nor at its publication unless the retry was published |
| `BumiGates.ArchiveGateExact` | bumiworker/bumiworker/tasks.py:431-453 | a parent delivery leads from the archive gate to the next state if and only if it is in time and either all results listed are clean and no call raised, or a call raised before an erroneous result was read and a retry was left and published |
| `BumiGates.StoredOutcomes` | bumiworker/bumiworker/tasks.py:383-453 | with current reads behind a barrier, the timeouts and errors a gate sees are exactly those stored for the modules of its folder |
| `BumiGates.BarriersBehind` | bumiworker/bumiworker/transitions.py:9-22 | along a history, every folder whose barrier the parent passed has a result of each of its modules, up to the last delivery |
| `BumiGates.TransitionCertifies` | bumiworker/bumiworker/transitions.py:9-22 | every change of a parent's state other than failing met the condition of that transition |
| `BumiGates.HistoryIsRoute` | bumiworker/bumiworker/transitions.py:9-22 | along a history of deliveries the state stays, advances by the table (or the no-modules shortcut) or fails |
| `BumiGates.RouteNeverTurnsBack` | bumiworker/bumiworker/transitions.py:9-22 | a parent's state never moves backwards and ERROR is absorbing |
| `BumiGates.PipelineWasPassed` | bumiworker/bumiworker/transitions.py:9-22 | a history that reaches UPDATED_CHECKLIST takes the nine stages at increasing positions, each certified and each gate examined against what was stored |
| `BumiLimits.FailedReadSkipsGate` | bumiworker/bumiworker/tasks.py:431-453 | when the archive listing raises and a retry is left, the next stage starts although an erroneous archive result is in sight |
| `BumiLimits.ChangedModulesOpenTheBarrier` | bumiworker/bumiworker/tasks.py:277-304 | a concrete run in which the list of enabled modules changes between two attempts and the barrier opens without one module's result |
| `BumiNames.PrefixSelects` | bumiworker/bumiworker/tasks.py:342-346 | listing by name prefix finds exactly the objects of that organization, run and folder, for slash-free organization ids |
| `BumiWorker.Task.PutTask` | bumiworker/bumiworker/main.py:58-68 | publishes one message, two seconds later when delayed, unless the call raises |
| `BumiWorker.Task.SaveResultToFile` | bumiworker/bumiworker/tasks.py:492-510 | stores the result under the child's own key |
| `BumiWorker.Task.CreateChildren` | bumiworker/bumiworker/main.py:70-72 | the loop publishes what the fan-out function does, up to the call that raises; BumiEffects.FanOutMakesChildren says what that is |
| `BumiWorker.Task.WithoutDisabled` | bumiworker/bumiworker/tasks.py:277-283 | the loop filters the installed modules by the disabled ones, in order |
| `BumiWorker.Task.CollectCheckResult` | bumiworker/bumiworker/tasks.py:383-428 | the read loop fails the parent if and only if some listed result is a timeout |
| `BumiWorker.Task.CheckArchiveResult` | bumiworker/bumiworker/tasks.py:431-453 | advances first, then the read loop stops at the first erroneous result |
| `BumiWorker.Task.Cleanup` | bumiworker/bumiworker/tasks.py:576-589 | the loop deletes exactly the listed objects of other runs |
| `BumiWorker.Task.HandleException` | bumiworker/bumiworker/tasks.py:90-185 | retry, failure, wait-clock reset and the terminal steps' put-back |
| `BumiWorker.Task.ProcessTask` | bumiworker/bumiworker/main.py:74-99 | the object's run, for any environment, publishes, stores and changes exactly what the delivery function does, of which the theorems of runs and of single deliveries (BumiEffects) speak |
| `Cleaner.CleanMongoDB.CleanMongo` | docker_images/cleanmongodb/clean-mongo-db.py:340-352 | from any state whose archive has the usual shape: wherever the run ends, nothing is lost, budgets hold, only rows of deleted owners are gone and only owners with no rows left are stamped; a run that goes through balances limit and deletions for every collection and leaves somebody unclean only if a limit ran out. In the settings' own terms: given any text for archive_enable, every expense row that went is in a file of its account or a demo's, and no file exceeds file_max_rows; without, no file is touched; no collection loses more than rows_limit rows; if none loses as many, every deleted owner is stamped and emptied. It ends early only at a call that fails, or for chunks of no rows |
| `Cleaner.CleanMongoDB.DeleteByCloudAccount` | docker_images/cleanmongodb/clean-mongo-db.py:327-338 | terminates, since each round stamps an account or exhausts a limit; ends with no deleted account uncleaned or a limit spent |
| `Cleaner.CleanMongoDB.DeleteByOrganization` | docker_images/cleanmongodb/clean-mongo-db.py:297-304 | the same for organizations, without touching what the account loop achieved |
| `Cleaner.CleanMongoDB.DeleteAccount` | docker_images/cleanmongodb/clean-mongo-db.py:306-320 | an account is stamped exactly when both limits last, and then it is no longer due |
| `Cleaner.CleanMongoDB.DeleteOrganization` | docker_images/cleanmongodb/clean-mongo-db.py:263-284 | the same for an organization and its six collections |
| `Cleaner.CleanMongoDB.DeleteByOwner` | docker_images/cleanmongodb/clean-mongo-db.py:263-320 | the stamp is set if and only if no limit ran out; otherwise no owner changes |
| `Cleaner.CleanMongoDB.DeleteInChunks` | docker_images/cleanmongodb/clean-mongo-db.py:141-173 | however far it gets, the rows gone are the owner's, at most the limit, and archived before they go if they must be; when it goes through, all the owner's rows or as many as the limit went, each archived exactly once, and the rest of the limit is returned |
| `Cleaner.CleanMongoDB.DeleteChunks` | docker_images/cleanmongodb/clean-mongo-db.py:150-171 | the chunk loop deletes the found rows and, when archiving, appends exactly them to the archive |
| `Cleaner.CleanMongoDB.ArchiveAndDelete` | docker_images/cleanmongodb/clean-mongo-db.py:150-171 | no row of a chunk is deleted unless the whole chunk was archived before |
| `Cleaner.CleanMongoDB.ArchiveChunk` | docker_images/cleanmongodb/clean-mongo-db.py:152-170 | the archive grows at its end by rows of the chunk and keeps files 1..k, all but the last full, none beyond the maximum; by exactly the chunk's rows when the run goes on |
| `Cleaner.CleanMongoDB.ArchivePiece` | docker_images/cleanmongodb/clean-mongo-db.py:160-170 | rows are appended to the last file with room or to the next one |
| `Cleaner.CleanMongoDB.SplitChunkByFiles` | docker_images/cleanmongodb/clean-mongo-db.py:250-261 | the chunk is cut into consecutive pieces: one for the room left, then full files, then a rest |
| `Cleaner.CleanMongoDB.GetArchiveFile` | docker_images/cleanmongodb/clean-mongo-db.py:215-224 | the file with the highest number, or number one |
| `Cleaner.CleanMongoDB.FindIds` | docker_images/cleanmongodb/clean-mongo-db.py:148-149 | as many matching ids as the limit allows, or all of them, each once |
| `Cleaner.CleanMongoDB.UpdateCleanedAt` | docker_images/cleanmongodb/clean-mongo-db.py:194-213 | stamps exactly the given owner |
| `Cleaner.CleanMongoDB.GetDeletedCloudAccount` | docker_images/cleanmongodb/clean-mongo-db.py:175-192 | some account that is deleted, or whose organization is, and not cleaned; none only if there is none |
| `Cleaner.CleanMongoDB.GetDeletedOrganization` | docker_images/cleanmongodb/clean-mongo-db.py:121-139 | some deleted, uncleaned organization; none only if there is none |
| `CleanerRun.StepKeeps` | docker_images/cleanmongodb/clean-mongo-db.py:141-173 | deleting some rows of a deleted owner, however far it gets, keeps all that must hold at every moment of a run |
| `CleanerRun.StepConserves` | docker_images/cleanmongodb/clean-mongo-db.py:152-171 | every expense row of the start is in its collection or in its account's archive, unless its account is a demo or nothing is archived |
| `CleanerRun.AfterStep` | docker_images/cleanmongodb/clean-mongo-db.py:172-173 | after each deletion, remaining limit plus rows deleted is the configured limit for every collection |
| `CleanerRun.StampKeeps` | docker_images/cleanmongodb/clean-mongo-db.py:282-284 | stamping an owner with no rows left keeps all that must hold |
| `CleanerRun.AllSwiped` | docker_images/cleanmongodb/clean-mongo-db.py:282-283 | if no limit is spent after deleting from every covered collection, no row of the owner is left |
| `CleanerRun.OwnersLeft` | docker_images/cleanmongodb/clean-mongo-db.py:327-338 | a stamp strictly lowers the number of owners due, nothing else changes it |
| `CleanerRun.EverythingCleaned` | docker_images/cleanmongodb/clean-mongo-db.py:340-352 | a finished run that deleted less than its budget everywhere stamped every deleted owner and left none of their rows |
| `CleanerRun.SpentExactly` | docker_images/cleanmongodb/clean-mongo-db.py:172-173 | a limit is zero if and only if exactly the budget was deleted from that collection |
| `CleanerTypes.AppendKeepsShape` | docker_images/cleanmongodb/clean-mongo-db.py:158-170 | appending to the last file, or to the next when the last is full, appends to the content and keeps the shape |
| `PowerSchedule.ExactlyOnce` | docker_images/power_schedule/worker.py:140-198 | over increasing instants whose windows share endpoints and hold at most one trigger each, every trigger strictly inside the span fires in exactly one window, boundary triggers included, for two or more triggers |
| `PowerSchedule.FiresIff` | docker_images/power_schedule/worker.py:157-198 | in a window with at most one trigger, a trigger fires exactly when the window owns it: the first of the day belongs to the window it ends, the others to the one they start |
| `PowerSchedule.CatchUp` | docker_images/power_schedule/worker.py:157-198 | when the last evaluation was before the first trigger, the latest trigger not after now fires, and none exactly when none was reached, for any number of triggers |
| `PowerSchedule.NeverLost` | docker_images/power_schedule/worker.py:296-314 | over the overlapping windows the worker really makes, no trigger inside the span is lost |
| `PowerSchedule.TwiceIffBetween` | docker_images/power_schedule/worker.py:296-314 | a trigger fires in two consecutive windows exactly when it falls between the noted instant and the evaluation after it |
| `PowerSchedule.FiredWithin` | docker_images/power_schedule/worker.py:169-198 | only a trigger inside the closed window fires, unless the window is one instant |
| `PowerSchedule.SingleTriggerFirings` | docker_images/power_schedule/worker.py:161-166 | with one trigger strictly inside windows that share their endpoints, it fires in exactly two windows when it is an endpoint and in exactly one otherwise |
| `PowerSchedule.EarliestMissedFires` | docker_images/power_schedule/worker.py:157-198 | however many triggers were missed, a window that starts after the first trigger fires exactly the earliest one from its start on that lies before now, and none if there is none |
| `PowerSchedule.FromFirstFires` | docker_images/power_schedule/worker.py:157-198 | a window that starts with the first trigger fires exactly the latest one reached, once it reaches beyond the second |
| `PowerSchedule.LatestMissedIff` | docker_images/power_schedule/worker.py:176-183 | once the first trigger has passed, the latest missed trigger fires if and only if the window holds no second one |
| `PowerSchedule.MissedGivesEarliest` | docker_images/power_schedule/worker.py:176-183 | a concrete window in which the earliest missed trigger fires instead of the latest |
| `PowerSchedule.IntersectIsShared` | docker_images/power_schedule/worker.py:127-138 | the computed intersection holds exactly the points both segments hold |
| `PowerSchedule.FindFired` | docker_images/power_schedule/worker.py:157-198 | the period loop computes the specified trigger |
| `PowerSchedule.PowerScheduleWorker.GetAction` | docker_images/power_schedule/worker.py:140-198 | refuses conflicting times; otherwise the action of the fired trigger, or none with the reason recorded |
| `PowerSchedule.PowerScheduleWorker.ProcessSchedule` | docker_images/power_schedule/worker.py:283-294 | a schedule that is disabled, outdated or of a disabled organization does nothing, conflicting triggers fail; otherwise it takes the action of the trigger that fired, exactly when one did |
| `PowerSchedule.PowerScheduleWorker.ProcessTask` | docker_images/power_schedule/worker.py:296-326 | last_eval becomes the noted instant whatever happened; for a schedule that is disabled, outdated or of a disabled organization nothing else changes, conflicting triggers record a run and an error, and otherwise run and error follow the action of the trigger that fired |
| `Migrator.Migrator.Migrate` | diworker/diworker/migrator.py:104-136 | one command with crashes: unknown recorded migrations are refused unchanged; a prefix stays a prefix; a command not cut short runs exactly the planned migrations in order; an untargeted upgrade fails only for a record that was no prefix and succeeds only for one that was; it is cut short only by a call that fails |
| `Migrator.CompleteIs` | diworker/diworker/migrator.py:86-102 | what a command not cut short leaves recorded: a downgrade the migrations up to its target, an upgrade also the local ones up to its target newer than everything recorded |
| `Migrator.Migrator.Upgrade` | diworker/diworker/migrator.py:86-93 | runs and records, oldest first, the migrations newer than every recorded one up to the target; cut short, a first part of them |
| `Migrator.Migrator.Downgrade` | diworker/diworker/migrator.py:95-102 | reverts, newest first, the recorded migrations beyond the target; cut short, a first part of them |
| `Migrator.Migrator.GetRemoteMigrations` | diworker/diworker/migrator.py:41-42 | the recorded migrations, sorted |
| `Migrator.CommandKeepsPrefix` | diworker/diworker/migrator.py:86-102 | however a command ends, a prefix of the local migrations stays one |
| `Migrator.HistoryKeepsPrefix` | diworker/diworker/migrator.py:104-136 | over any history of targeted or untargeted upgrades, downgrades and crashes, the record stays a prefix |
| `Migrator.UpThenDown` | diworker/diworker/migrator.py:86-102 | from a prefix, upgrading to t2 and downgrading to t1 <= t2 leaves exactly the migrations up to t1 |
| `Migrator.UpgradeCompletesIff` | diworker/diworker/migrator.py:127-136 | an untargeted upgrade completes the record if and only if it was a prefix, for any recorded subset |
| `Migrator.PrefixIff` | diworker/diworker/migrator.py:86-93 | the prefixes are the downward closed sets of local migrations |
| `KataraRuns.FanOutConserved` | katara/katara_worker/tasks.py:277-395 | when a run in which nothing fails has no message left, every task is COMPLETED, a task that collected recipients has one child per distinct user in order, and each child posted one report or completed silently |
| `KataraRuns.ReportsArePosted` | katara/katara_worker/tasks.py:294-395 | at the end of such a run a child has posted its report, once, if and only if in its own deliveries the employee was found with the mail enabled and the report was made |
| `KataraRuns.CleanOutcomes` | katara/katara_worker/tasks.py:173-395 | where a delivery without failures takes a task, by what the services answered: without a recipient, with nobody named, with no employee, the mail disabled or no data it completes, otherwise it goes on with exactly what the step stores |
| `KataraRuns.RefusalsAreRetried` | katara/katara_worker/tasks.py:187-330 | a disabled organization and a report without a mail template fail the delivery: retried while a retry is left, then the task is marked failed if the handler's calls go through |
| `KataraRuns.LateGivesUp` | katara/katara_worker/tasks.py:99-162 | a delivery that comes an hour after the last update and would go on gives up without a retry; one that completes its task is not held up |
| `KataraRuns.NamedUsersAreServed` | katara/katara_worker/tasks.py:220-291 | at the end of such a run the children of a task are for exactly the first entries of the users the authorization service named when it asked, each user once, and there are none if the recipient was gone |
| `KataraRuns.RolesAreFinal` | katara/katara_worker/tasks.py:226-291 | the recipients once stored do not change over the rest of such a run, and a task that ended without any gets none |
| `KataraRuns.StepKeepsInv` | katara/katara_worker/tasks.py:173-395 | a delivery without failures of any live message, in any order, keeps the run's invariant: one live message per unfinished task, children and posted reports accounted for |
| `KataraRuns.DeliveryMovesOrEnds` | katara/katara_worker/tasks.py:99-136 | with any failures, each delivery advances the stage, consumes a retry or ends the message chain, and never goes back |
| `KataraRuns.ChainsAreBounded` | katara/katara_worker/tasks.py:99-136 | a chain of deliveries of one task is no longer than its stages and retries left |
| `KataraRuns.RecipientsCollected` | katara/katara_worker/tasks.py:220-274 | the recipients collected are exactly the first entries of the users the authorization service named |
| `KataraRuns.RetryDuplicatesChildren` | katara/katara_worker/tasks.py:277-291 | a concrete failure between creating the children and completing the parent after which a retry creates the children again |
| `KataraRuns.RecreatesIff` | katara/katara_worker/tasks.py:277-291 | a delivery that created children leads to another that creates them again if and only if the creation raised after taking effect or the completion raised without effect, and the retry is published |
| `KataraRuns.NotPostedAgainIff` | katara/katara_worker/tasks.py:379-395 | a posting that raised is never repeated if and only if the completion after it took effect or no retry was published; otherwise the next delivery posts |
| `KataraRuns.PostedTwiceIff` | katara/katara_worker/tasks.py:379-395 | a report is posted by a delivery and by its retry if and only if both postings took effect, the completion of the first raised without effect and the retry was published |
| `Katara.DuplicatesRemoved` | katara/katara_worker/tasks.py:262-270 | removing entries by value while walking a copy leaves every user exactly once, loses none, and keeps exactly the first entries |
| `KataraWorker.TaskStep.RemoveDuplicates` | katara/katara_worker/tasks.py:262-270 | the in-place loop keeps every user once, with its first entry |
| `KataraWorker.TaskStep.Remove` | katara/katara_worker/tasks.py:267 | takes out the first equal entry |
| `KataraWorker.TaskStep.SetGeneratingReportData` | katara/katara_worker/tasks.py:277-291 | the loop builds one child per stored recipient, creates them, then completes |
| `KataraWorker.TaskStep.PutToHerald` | katara/katara_worker/tasks.py:379-395 | the completion is attempted whatever the posting did, as a call that may itself raise, with or without effect; after a failed posting the step raises either way |
| `KataraWorker.TaskStep.ProcessTask` | katara/katara_worker/main.py:74-90 | the object's run, for any environment, creates, posts, publishes and changes exactly what the delivery function does, of which CleanOutcomes and the run theorems speak |
| `Gemini.JoinCounts` | gemini/gemini_worker/main.py:292-318 | the grouped join counts the objects of a whose tag occurs in b plus those of b whose tag occurs in a, and sums the sizes of the former |
| `Gemini.DuplicatesCounted` | gemini/gemini_worker/main.py:292-318 | what is counted for two buckets is the number of objects of the first for which some object of the second has the same tag |
| `Gemini.RepeatedCounted` | gemini/gemini_worker/main.py:391-448 | what is counted for a bucket is the number of its objects that share their tag with another object of any bucket |
| `Gemini.GroupsAddUp` | gemini/gemini_worker/main.py:293-310 | adding up groups of distinct keys counts every object with one of the keys exactly once |
| `Gemini.CalculateCrossMatrix` | gemini/gemini_worker/main.py:319-358 | the matrix covers exactly the pairs of listed buckets, says what counting object by object says, has the bucket's objects on the diagonal and is symmetric in counts |
| `Gemini.CalculateObjectsWithDuplicates` | gemini/gemini_worker/main.py:404-448 | for every listed bucket, the number of its objects whose tag is repeated anywhere, with sizes less one object for groups inside one bucket |
| `Gemini.DuplicatesAddUp` | gemini/gemini_worker/main.py:391-448 | when every bucket is listed once, the numbers add up to the number of objects with a repeated tag |
| `Gemini.WantedCounts` | gemini/gemini_worker/main.py:404-421 | the two cases of the loop both count the bucket's objects in the group |
| `Gemini.SizesCount` | gemini/gemini_worker/main.py:404-428 | the size reported for a bucket plus one object of every group that lies in it alone make up the sizes of all its objects with a repeated tag |
| `Gemini.BucketPairs` | gemini/gemini_worker/main.py:341-344 | the pairs cover every two listed buckets in one order or the other |
| `StreamAdapter.IteratorIO.Read` | gemini/gemini_data_worker/main.py:43-56 | reads like a plain file over the concatenated chunks for any sequence of sizes: nothing lost or repeated, exact sizes before the end, an empty buffer after it, no chunk taken that is not needed |
| `StreamAdapter.IteratorIO.Fill` | gemini/gemini_data_worker/main.py:46-51 | chunks are taken until the buffer suffices or the iterator ends |
| `EtcdTree.RoundTrip` | optscale_client/config_client/client.py:49-129 | reading an empty branch after writing a structure of non-empty dicts onto it returns that structure |
| `EtcdTree.SameValuesSameTree` | optscale_client/config_client/client.py:72-86 | a structure without empty dicts is determined by its values |
| `EtcdTree.UpdateKeeps` | optscale_client/config_client/client.py:131-160 | existing values the structure names stay, missing ones are added; values it does not name go, except, unless keys are to be removed, under names absent from its top level; nothing changes outside |
| `EtcdTree.UpdateTwice` | optscale_client/config_client/client.py:131-160 | updating twice with the same structure is updating once |
| `EtcdTree.MergedFits` | optscale_client/config_client/client.py:131-160 | after an update the structure still fits the store, so the update can be repeated |
| `EtcdTree.Client.WriteBranch` | optscale_client/config_client/client.py:101-129 | writes exactly the structure's values below the branch and changes nothing else |
| `EtcdTree.Client.ReadBranch` | optscale_client/config_client/client.py:49-86 | builds nested dicts holding exactly the values below the branch, none of them empty; nothing there is not found, a value in the branch's place comes back under an empty name |
| `EtcdTree.Client.UpdateStructure` | optscale_client/config_client/client.py:131-160 | a key with nothing below it is not found; otherwise the structure is merged into a stored one that agrees with it on what is a directory |
| `EtcdTree.Client.Merge` | optscale_client/config_client/client.py:135-160 | the removals and the loop over the names do the merge name by name |
| `EtcdTree.Client.RemoveNames` | optscale_client/config_client/client.py:139-144 | removes everything below the given names and nothing else |
| `YearSlices.SliceTimePeriodByYears` | docker_images/organization_violations/worker.py:253-266 | the slices follow each other day by day from start to end, each but the last a year long; no slice spans more than 365 days if and only if the end does not overhang; with an overhang the last has 366 |
| `YearSlices.EachDayOnce` | docker_images/organization_violations/worker.py:253-266 | every calendar day of the span lies in exactly one slice |
| `YearSlices.EndOfDayNeverOverhangs` | docker_images/organization_violations/worker.py:337-343 | with an end of day at the end, as the budget check has it, nothing overhangs |
| `YearSlices.OverhangExists` | docker_images/organization_violations/worker.py:253-266 | a concrete span with a slice of 366 days |
| `YearSlices.ProcessExpiringBudget` | docker_images/organization_violations/worker.py:337-350 | the total over the slices counts every day's expenses exactly once |
| `Bailiff.GraceOverRuns` | docker_images/bailiff/worker.py:148-235 | over any run of checks, failing half way or not, with Stripe active or not: the recorded start is the first check of the present streak of exceeded limits, the subscription is suspended exactly when the last recorded check found Stripe inactive or that streak the grace period old, and the organization is disabled exactly when it was so at the last check that went through |
| `Bailiff.BreachedIff` | docker_images/bailiff/worker.py:154-203 | a limit is breached if and only if a key other than the plan's unit has a value above its limit, or the unit one above its limit times the quantity, or above the quantity without a limit; a quantity of zero counts as one, and monthly values by their largest |
| `Bailiff.SuspendedOnlyAfterGrace` | docker_images/bailiff/worker.py:171-189 | a suspension means that the last recorded check found Stripe inactive, or a limit exceeded at every check that counted since one that is the grace period old, which is the recorded start |
| `Bailiff.SuspensionStays` | docker_images/bailiff/worker.py:177-189 | once suspended for exceeded limits, a further check above the limits keeps it suspended, whether it fails, finds Stripe inactive or goes through |
| `Bailiff.DecideTwice` | docker_images/bailiff/worker.py:205-235 | deciding again on the same facts changes nothing, so a half-done check is completed by repeating it |
| `Bailiff.BailiffWorker.FindExceeded` | docker_images/bailiff/worker.py:154-168 | the loop finds an exceeded limit if and only if there is one |
| `Bailiff.BailiffWorker.ProcessSubscriptionStatus` | docker_images/bailiff/worker.py:148-190 | the decision: active, limit exceeded with its grace start, or suspended |
| `Bailiff.BailiffWorker.CheckSubscription` | docker_images/bailiff/worker.py:205-235 | every check is a step of such a run: when it goes through the organization is disabled exactly when the subscription is suspended, when it fails the decision is recorded or not and the organization stays as it was; it fails exactly when one of its calls does; BreachedIff says which limits count |

## Left out

- Transports: RabbitMQ, S3, Mongo, ClickHouse, MySQL, etcd and HTTP are only their abstract state and the possibility to fail; acknowledgements do not fail, and a publish that raises has not published, except that a report's posting may have.
- Recommendation pipeline: the data of module results, what CollectCheckResult saves to Mongo, the second read of failed modules when a run is logged (one call here), and e-mails.
- BumiSystem.EventKeepsInv: one organization's run at a time; objects of other runs change freely, but two active runs of one organization are not modelled.
- BumiRuns.GateSafety: for reads that show the store as the delivery finds it; a result overwritten by a redelivered child while the gate reads is not modelled.
- BumiRuns.OneLiveParent: holds without crashes before the acknowledgement; with them a message is delivered again, which BumiRuns.BarrierSafety covers.
- Cleaner: rows added during a run, the order of lines inside an archived piece, JSON encoding of rows, negative settings, and account ids that contain one another; archive files are identified by account and number.
- Cleaner.CleanMongoDB.DeleteInChunks: an append or deletion cut short leaves a first part or some subset done; a half-written line of a file is not modelled.
- Power schedules: time zones, local times and their conversion are not modelled; triggers are instants of one day, and the cloud calls are one outcome.
- Migrator: migration names are distinct numbers; what a migration does to the database is only a log entry, and a crash between running and recording leaves it run but unrecorded.
- Report pipeline: the contents of reports, scopes and mail settings are answers of the environment; the order of messages in the queue is arbitrary; the activity message of a failed task is not modelled.
- Gemini.CalculateCrossMatrix: takes the answer of the query as given by the meaning of grouping and joining; monthly savings, a floating-point ratio, are left out, as in Gemini.CalculateObjectsWithDuplicates.
- EtcdTree.Client.WriteBranch: lists and None values are not modelled, nor are empty directories, which the real store keeps after their last value is removed.
- EtcdTree.Client.UpdateStructure: the always_update list and lists in the structure are not modelled; keys are lists of slash-free components, so a child path cannot repeat its base path.
- YearSlices: daylight saving and calendar formatting; a day has 86400 seconds.
- YearSlices.ProcessExpiringBudget: only the total; skipping an unchanged budget and recording limit hits are not modelled.
- Bailiff: creating missing customers, and plans whose grace period changes between checks; an update of the organization that raises has not taken effect.
- Resource discovery, metric collectors, the other migrators, the servers, the user interface and the deployment scripts.
