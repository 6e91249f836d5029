# Verified model of the pipeline, its feedback paging and the factory simulator

A Dafny model of the parts of the repository where state, order and text formats interact, with proofs. Verify
with `dafny verify dfyconfig.toml`.

## What is modelled

**Feedback paging** (`FeedbackKeys`, `FeedbackPaging`, `FeedbackReader`, `FeedbackMeaning`, `FeedbackItems`,
`FeedbackRuns`, `RunsOnce`, `FeedbackOrder`, `StuckCalls`, `CursorText`, `CursorMeaning`). `read_pr_feedback` merges
three separately paged comment lists under one composite cursor. A server is three finite lists of raw comments; a
page is a slice, and there is a next page exactly when entries remain. That nothing is skipped needs no order on the
lists. That nothing is repeated, and that a run ends at all, holds when each page is in key order or the limit is
large; for lists in any order the exact conditions are given.

**Polling a pull request** (`PrFeedbackPoll`, `PrFeedbackTheorems`, `ReportedCursor`, `PrFeedbackCursor`). The loop
that drives those calls, ingests every item and saves a cursor for the next poll.

**The task cluster** (`TaskModel`, `ClusterSteps`, `ClusterInvariant`, `ClusterSafety`, `ClusterRuns`,
`ClusterTheorems`, `ClusterRest`, `ClusterExamples`). Intake, execute worker, deliver worker and restart endpoint
change one task table. Each database transaction is one step; a run is any sequence of enabled steps, so every
interleaving is covered. An agent run is an arbitrary outcome. `Repository`, `Intake`, `ExecuteWork` and
`DeliverWork` are the objects that run these transactions, each method proved equal to its step. `PollRows` and
`SettledRows` tell every decision and every outcome from the rows of the table alone. `Lineage` holds the two walks to
the root and what is read off them.

**The factory simulator** (`FactoryModel`, `FactoryMoves`, `FactoryRuns`, `FactoryTicks`, `FactoryQueues`,
`FactoryOrder`, `FactoryLines`, `FactoryExample`, `FactorySim`). What `makeSim` returns, with its queues, agents and
belts. Random numbers are arbitrary, within the work range of each station. Tickets are named by their number, so that
lists hold names rather than objects.

**The poll scheduler** (`PollScheduler`): two elapsed counters and one sleep, in simulated time.

**Texts that are written and read again**: cursors (`CursorText`), the pull-request footer (`Base64Url`, `PrFooter`;
sections 3.2 and 5 of RFC 4648) and the hidden block of an issue description (`InputBlock`).

## What the proofs brought to light

- Two lists with the newer edit first make the poll loop re-read the same page for ever
  (`FeedbackOrder.NewestFirstNeverEnds`).
- The saved feedback cursor need not be the largest key ingested. It names the last item of the last page, or is the
  old cursor when that page is empty, and it is the largest exactly when no page ends above that item
  (`PrFeedbackCursor.SavedIsLargestIff`). Even lists in key order can end on a page below an earlier one
  (`PrFeedbackCursor.LastPageNotLargest`), or on an empty page (`PrFeedbackCursor.CursorFallsBack`). When every list
  fits into one page it is always the largest (`PrFeedbackCursor.OnePageSavesLargest`). Otherwise the next poll
  may read comments again, and creates nothing for them.
- An edit made after a triage found the task ready, and before its implementation was started, is recorded as seen
  although no triage will look at it (`ClusterTheorems.EditReachesTriage`, `ClusterTheorems.SwallowedEdit`). The same
  happens after a triage failed (`ClusterExamples.FailedTriageSwallowsEdit`).
- A superseded implementation blocks any later one of its cluster, since the check for an existing implementation
  does not look at the status (`ClusterTheorems.SupersededForGood`). For the same reason a reopened task is triaged
  again but never implemented again (`ClusterTheorems.ReopenedIsNotImplemented`).
- A restart may put a second triage beside an active one, exactly when it revives a triage under a fetch that has one
  (`ClusterRuns.RestartKeepsOneActive`, `ClusterExamples.RestartBesideActiveIsReached`).
- A JSON text that contains the closing marker makes the hidden block unreadable (`InputBlock.WrittenReads`), and so
  does an opening marker that the description leaves open (`InputBlock.WrittenAnywhere`).
- A pull-request body that already holds a footer hides the one appended to it (`PrFooter.ComposedReads`).
- `_ensure_followup_implementation_execute` has no caller; the implementation is created from tracker feedback only.

## The hypotheses can be met

Every run over lists whose pages are in order ends (`FeedbackOrder.ExactlyOnce`), so what is said of ended runs
applies to each of them, and `PrFeedbackPoll.PollExecutePrFeedback` is a poll as the theorems about polls assume it.
The empty table satisfies the cluster invariant and every run from it keeps it (`ClusterRuns.Reachable`); concrete
runs lead to a swallowed edit, a superseded implementation, a reopening and two triages side by side. The factory
starts in order (`FactoryRuns.StartIsFloor`), and a run that ships exists for every interval from 387 on
(`FactoryExample.ShipsOnTime`).

## Hypotheses

- The tracker payload's `action` is absent or `"triage"`, and tracker-supplied metadata does not use the two internal
  keys.
- The digest of a content travels with it and is otherwise arbitrary, so nothing is assumed about SHA-256.
- JSON reads back what it wrote; for the hidden block also that an object's text is brace to brace and that no proper
  prefix of it is an object; where an untidy description is rewritten, that no object's text holds the opening marker
  followed by a line break.
- No source lists an id twice. Timestamps have no separator where `PlainStamps` says so.
- The feedback limit is at least 1, as the query schema demands.

## Model

| member | source | states |
|---|---|---|
| FeedbackReader.ReadPrFeedback | src/backend/adapters/github_scm.py:643-776 | The call as it runs, with its per-source loops, returns exactly the page, next cursor and latest cursor of the specification, for every since text and every page cursor that is missing, malformed or names pages from 1 on, wherever its offsets point |
| FeedbackReader.LoadWindow | src/backend/adapters/github_scm.py:686-704 | The order list has one entry per raw comment, empty where the comment is unreadable or not above the since key; the loaded list is its non-empty entries |
| FeedbackReader.CountConsumed | src/backend/adapters/github_scm.py:722-736 | Counts the prefix that ends at the first loaded comment that was not returned |
| FeedbackReader.WindowOfRaws | src/backend/adapters/github_scm.py:1013-1039 | Filtering one fetched page gives the same entries as cutting the page out of the filtered list |
| FeedbackKeys.KeyTotal | src/backend/adapters/github_scm.py:127-129 | The sort keys are totally ordered, so dropping keys at or below the since key keeps exactly those above it |
| FeedbackKeys.SortByKeySorted | src/backend/adapters/github_scm.py:706-710 | The sort gives key order, is a permutation, and keeps items with equal keys in the order they came in |
| FeedbackMeaning.ComesFirst | src/backend/adapters/github_scm.py:127-129 | One key comes before another exactly when its timestamp differs first by a smaller character or is a proper prefix, or on equal stamps the same holds of the source name, or on equal names its number is smaller |
| FeedbackMeaning.LaterIsEligible | src/backend/adapters/github_scm.py:698-702 | A readable listed comment with a later stamp than the since key is eligible, one with an earlier stamp is not, and the since key itself never is |
| FeedbackMeaning.PagesRise | src/backend/adapters/github_scm.py:706-710 | Timestamps never fall along a page, and on equal stamps neither does the source name, nor then the number |
| FeedbackMeaning.LeftOutIsLater | src/backend/adapters/github_scm.py:709-710 | What was loaded but left out for lack of room comes after all that was returned |
| FeedbackMeaning.CommentFields | src/backend/adapters/github_scm.py:1050-1073 | Which raw comments are readable, and the stamp, number and body they are read with: the update time, else the creation time |
| FeedbackMeaning.ReviewFields | src/backend/adapters/github_scm.py:1075-1131 | The same for reviews: the submission time, else the update time, and a text by state where the body is blank |
| FeedbackMeaning.NextPageIff | src/backend/adapters/github_scm.py:1013-1039 | There is a next page exactly when some entry lies behind the page |
| FeedbackMeaning.RestOfPage | src/backend/adapters/github_scm.py:686-704 | What a call looks at on its page: the entries from the offset on, a negative offset counting from the end |
| FeedbackRuns.PassedIsReturned | src/backend/adapters/github_scm.py:715-746 | An entry that a call moves a source past was filtered out or was handed out by that very call |
| FeedbackRuns.NoSkip | src/backend/adapters/github_scm.py:655-768 | A run that ends has returned exactly the eligible comments, whatever the order of the lists |
| FeedbackRuns.ProgressOrStuck | src/backend/adapters/github_scm.py:715-746 | A call lowers the sum over open sources of remaining entries plus one, or leaves all three cursors unchanged; which of the two is told by the first entry of each window |
| FeedbackRuns.StuckForever | src/backend/adapters/github_scm.py:715-746 | A run that reaches a call of the second kind repeats it for ever |
| FeedbackRuns.EndsIffNeverStuck | src/backend/adapters/github_scm.py:655-768 | Paging terminates if and only if no call on the way is stuck |
| FeedbackItems.PageItems | src/backend/adapters/github_scm.py:709-710 | A page has at most `limit` items, the first ones of the merged list |
| StuckCalls.MovesIff | src/backend/adapters/github_scm.py:715-746 | A source moves exactly when it has nothing to look at, or its first entry was filtered out, or fewer than `limit` loaded comments sort before it |
| StuckCalls.StuckIff | src/backend/adapters/github_scm.py:715-746 | A call is stuck exactly when every open source starts with a comment that at least `limit` loaded ones precede |
| RunsOnce.NoRepeat | src/backend/adapters/github_scm.py:655-768 | A run whose calls pass what they return returns no comment twice |
| RunsOnce.OnceIffSteady | src/backend/adapters/github_scm.py:655-768 | A run ends with every eligible comment returned exactly once if and only if no call is stuck and each call passes what it returns |
| FeedbackOrder.OrderedLists | src/backend/adapters/github_scm.py:655-768 | Lists in key order have every page in key order, whatever the page size |
| FeedbackOrder.OrderedPasses | src/backend/adapters/github_scm.py:715-746 | With each page in key order, a call passes everything it returns |
| FeedbackOrder.OrderedMoves | src/backend/adapters/github_scm.py:715-746 | With each page in key order, every call before the end moves some source |
| FeedbackOrder.ExactlyOnce | src/backend/adapters/github_scm.py:655-768 | With each page in key order, a run ends within the number of listed entries plus three calls, and its output holds each eligible comment once and nothing else |
| StuckCalls.LargeLimitIsSteady | src/backend/adapters/github_scm.py:655-768 | So it is in any order when the limit is at least three full pages, or at least the number of listed entries |
| FeedbackOrder.NewestFirstNeverEnds | src/backend/adapters/github_scm.py:706-746 | The order is needed: for every pair of two-element lists with the newer edit first, a run with limit 2 never ends |
| CursorText.SinceRoundTrip | src/backend/adapters/github_scm.py:108-129 | A feedback cursor survives printing and parsing if and only if its timestamp has no separator |
| CursorText.CursorsRoundTrip | src/backend/adapters/github_scm.py:981-1003 | Parsing a printed page cursor gives back all three entries, exhausted or not, for every page and offset |
| CursorText.PartRoundTrip | src/backend/adapters/github_scm.py:981-1003 | One part of a page cursor round-trips and never contains the part separator |
| CursorMeaning.SinceIff | src/backend/adapters/github_scm.py:119-124 | A stored text is a since cursor exactly when it is a stamp, a source text and a number between two separators, and then it says these; any other text counts as none |
| CursorMeaning.PartIff | src/backend/adapters/github_scm.py:985-993 | A part is accepted exactly when it names one of the three sources, a page number or the exhausted mark, and an offset, and then it says these |
| CursorMeaning.CursorsMean | src/backend/adapters/github_scm.py:981-997 | A page cursor is accepted exactly when all its parts are; each source stands where the last part that names it says, and at page 1 when none does |
| CursorMeaning.IntIff | src/backend/adapters/github_scm.py:119-124 | A number is digits after at most one minus sign |
| PrFeedbackPoll.CommentIdsDistinct | src/backend/adapters/github_scm.py:1133-1134 | Comment ids of different sources or numbers are different texts |
| PrFeedbackPoll.TextsRead | src/backend/adapters/github_scm.py:108-134 | How comment ids, numbers and since cursors are written |
| PrFeedbackPoll.PollExecutePrFeedback | src/backend/workers/tracker_intake.py:735-796 | Unless a call gets stuck, which is when paging never ends, the poll loop terminates and is the abstract poll: all pages up to the first end ingested in order, then the latest reported cursor saved |
| PrFeedbackPoll.NextCall | src/backend/workers/tracker_intake.py:753-790 | A call made with the printed cursors of a run is the run's next call, and the printed cursor is missing exactly when the run has ended |
| PrFeedbackPoll.AllIngested | src/backend/workers/tracker_intake.py:601-659 | Ingesting a list of comments keeps all rows and adds one task, told by its fields, for each comment that had none |
| PrFeedbackTheorems.EligibleIff | src/backend/adapters/github_scm.py:695-704 | The comments a run is about are the readable ones strictly above the since key |
| PrFeedbackTheorems.PollIngests | src/backend/workers/tracker_intake.py:735-796 | After a poll every eligible comment has exactly one task under the execute it maps to, every new row is such a task, and no other row changed except for the saved cursor |
| PrFeedbackTheorems.SavedCursor | src/backend/workers/tracker_intake.py:753-796 | The saved cursor is the old one, or names an eligible comment of this poll with a key above the old one |
| PrFeedbackTheorems.PollAgain | src/backend/workers/tracker_intake.py:735-796 | A second poll of the same comments creates no task and changes nothing but the saved cursor |
| PrFeedbackTheorems.LaterComments | src/backend/workers/tracker_intake.py:735-796 | A comment listed later with a key above everything polled before has exactly one task after the first poll that lists it, however many polls there were and whatever else happened to the table in between |
| PrFeedbackTheorems.CursorLasts | src/backend/workers/tracker_intake.py:895-902 | No step but a save for that very implementation writes its saved cursor, over every run |
| PrFeedbackCursor.LatestIs | src/backend/adapters/github_scm.py:759-763 | With a since cursor the last call decides: it reports the old cursor exactly when its windows hold no eligible entry, and otherwise its last item; without one, an empty call leaves what was reported before |
| ReportedCursor.DecidedBy | src/backend/workers/tracker_intake.py:743-787 | The cursor kept over any sequence of pages is the last item of the deciding page, or the old one when no page decides |
| PrFeedbackCursor.SavedIsLargestIff | src/backend/workers/tracker_intake.py:743-796 | The kept cursor names the largest key returned if and only if some page decides, the last one when there is a since cursor, and no page of the run ends above it |
| PrFeedbackCursor.OnePageSavesLargest | src/backend/workers/tracker_intake.py:743-796 | So it is, whatever the order, when no list is longer than a page and something is eligible |
| PrFeedbackCursor.PollSavesLargest | src/backend/workers/tracker_intake.py:735-796 | A poll of such lists saves the largest key it was about |
| PrFeedbackCursor.LastPageNotLargest | src/backend/adapters/github_scm.py:706-763 | A family with every list in order and no empty call, pages `[a, b]`, `[c, e]`, `[d]`: the cursor names `d` although the larger `e` was returned |
| PrFeedbackCursor.CursorFallsBack | src/backend/adapters/github_scm.py:759-763 | A family with an empty last page: a comment is returned and the old cursor kept |
| ClusterRuns.StepMoves | src/backend/workers/tracker_intake.py:264-546 | Every step of the pipeline, poll, comment, claim, completion, failure, hand-off, delivery or restart, only adds rows of the allowed kinds, keeps identities, and moves statuses along the allowed edges |
| ClusterRuns.StepKeepsInv | src/backend/workers/tracker_intake.py:264-546 | Every step keeps the cluster invariant, restarts included |
| ClusterRuns.Reachable | src/backend/workers/tracker_intake.py:264-546 | Every table reached from the empty one satisfies the invariant: one fetch per tracker task, one implementation per root handed off from a ready triage, every delivery under a finished parent, one delivery per parent, every finished execute delivered; without restarts also one active triage per fetch |
| ClusterRuns.StepKeepsQuiet | src/backend/workers/tracker_intake.py:371-451 | Without restarts each fetch keeps at most one waiting or running triage, and a waiting one holds the content whose hash is on record |
| ClusterRuns.OnlyPollsWriteContents | src/backend/workers/tracker_intake.py:419-427 | No step other than a poll writes a content snapshot or a stored hash, or creates a fetch or triage |
| ClusterRuns.RestartKeepsOneActive | src/backend/api/routes/tasks.py:218-254 | A restart keeps the single active triage if and only if it does not revive a triage beside an active one |
| ClusterRuns.RunKeepsRows | src/backend/workers/execute_worker.py:1665-1696 | Over every run, rows are never removed or re-identified, DONE is absorbing, and a ready triage stays ready with the same brief |
| ClusterTheorems.EditReachesTriage | src/backend/workers/tracker_intake.py:371-546 | A changed description is left with a waiting triage that holds it if and only if a stated condition on the table holds; while a triage runs the hash stays, otherwise the edit is marked as seen with no triage to look at it |
| ClusterTheorems.SwallowedEdit | src/backend/workers/tracker_intake.py:453-546 | A reachable case of the last kind: an edit after a small task was triaged and before its implementation was started |
| ClusterTheorems.EditDuringTriageIsSeenAgain | src/backend/workers/tracker_intake.py:419-437 | An edit polled while a triage runs is still seen as a change at the next poll of that task, after any steps in between |
| ClusterTheorems.ReopenedOnce | src/backend/workers/tracker_intake.py:388-413 | After a reopening was acted upon, no poll in any continuation reopens the same fetch again |
| ClusterTheorems.OneImplementationEver | src/backend/workers/execute_worker.py:673-677 | Once a cluster has an implementation, finished or not, no continuation adds another, restarts included |
| ClusterTheorems.ReopenedIsNotImplemented | src/backend/workers/tracker_intake.py:501-528 | After a reopening the cluster's only implementation is and stays the finished one |
| ClusterTheorems.SupersededForGood | src/backend/workers/tracker_intake.py:467-485 | A superseded implementation is never replaced: unless it is restarted, its cluster has no other implementation in any continuation |
| ClusterExamples.SupersedeIsReached | src/backend/workers/tracker_intake.py:467-499 | The supersede branch is reached from the empty table without restarts: triaged, implementation requested by a comment, then edited |
| ClusterExamples.ReopenIsReached | src/backend/workers/tracker_intake.py:404-413 | The reopen branch is reached from the empty table without restarts: triaged, implemented, delivered, and reported as new again |
| ClusterExamples.RestartBesideActiveIsReached | src/backend/repositories/task_repository.py:410-420 | A run in which a restart puts a second waiting triage beside the first: escalated, edited, failed, edited again, restarted |
| ClusterExamples.FailedTriageSwallowsEdit | src/backend/workers/tracker_intake.py:533-546 | A run in which an edit after the first triage failed is recorded as seen with nothing left that would look at it |
| ClusterTheorems.TheImplementation | src/backend/repositories/task_repository.py:215-353 | The queries for a waiting, running or finished implementation all look at the one implementation of the root |
| ClusterRest.PollTwice | src/backend/workers/tracker_intake.py:336-546 | Ingesting the same snapshot twice leaves the same table as ingesting it once, in every branch |
| ClusterRest.WorkerStepFalls | src/backend/workers/execute_worker.py:176-448 | Every claim, completion, failure, hand-off and delivery strictly lowers a weighted count of open tasks, although completions create tasks |
| ClusterRest.WorkersComeToRest | src/backend/workers/execute_worker.py:176-448 | With no new input the workers take at most as many steps as that count, in any order |
| Repository.TaskRepository.FindFirst | src/backend/repositories/task_repository.py:143-328 | Returns the matching row with the lowest id, or none |
| Repository.TaskRepository.FindLast | src/backend/repositories/task_repository.py:330-375 | Returns the matching row with the highest id, or none |
| Repository.TaskRepository.CreateTask | src/backend/repositories/task_repository.py:65-110 | Fails exactly for a root without parent, a missing parent or a root that is not the parent's; otherwise appends one row with the resolved root |
| Repository.TaskRepository.LoadTaskChain | src/backend/repositories/task_repository.py:112-118 | Returns exactly the rows of a root |
| Repository.TaskRepository.PollTask | src/backend/repositories/task_repository.py:120-141 | Claims the waiting row of a kind with the least update time, then the least id, in one step, or changes nothing when there is none |
| Repository.TaskRepository.RestartFailedTask | src/backend/repositories/task_repository.py:410-420 | Resets one row to NEW without result, or fails for a missing id |
| Repository.RestartTask | src/backend/api/routes/tasks.py:218-254 | Restarts exactly the failed tasks of the four worker-owned kinds, told by the row; every other request changes nothing |
| Intake.IntakeWorker.IngestTrackerTask | src/backend/workers/tracker_intake.py:264-288 | The transaction takes the table to the specified one, and its report says what was created |
| Intake.IntakeWorker.HandleExistingFetch | src/backend/workers/tracker_intake.py:336-546 | All branches for a known tracker task, as nested early returns, take the table to the specified one; a task was created exactly when a row was added |
| PollRows.DecideIff | src/backend/workers/tracker_intake.py:336-546 | What a poll of a known task amounts to, each branch if and only if a condition told from kinds, parents, statuses and results of rows alone |
| PollRows.ReopenedIff | src/backend/workers/tracker_intake.py:388-413 | A poll reopens the implementation `i` if and only if the snapshot is new, `i` is the cluster's finished implementation, some delivery below it is finished, no triage waits or runs, and the fetch's marker is not `i` |
| PollRows.NotReopenedBeforeDelivery | src/backend/workers/tracker_intake.py:399-409 | The table in which the implementation is finished and its delivery still waits is reached, and an unchanged snapshot reported as new is skipped there |
| PollRows.FirstSeenIff | src/backend/workers/tracker_intake.py:264-288 | A task counts as new if and only if no fetch row carries its tracker id |
| PollRows.FirstRows | src/backend/workers/tracker_intake.py:290-334 | The two rows written for a new task, field by field |
| PollRows.PolledRows | src/backend/workers/tracker_intake.py:415-546 | What each decision on a known task writes, field by field, with every other row as it was |
| Intake.IntakeWorker.DetectReopen | src/backend/workers/tracker_intake.py:377-413 | The reopen flag as computed from the queries |
| Intake.IntakeWorker.Retriage | src/backend/workers/tracker_intake.py:453-546 | The branches after the context refresh: running, waiting or finished implementation, then the last triage |
| Intake.IntakeWorker.CreateInitialFetchAndExecute | src/backend/workers/tracker_intake.py:290-334 | Adds the fetch and its first triage |
| Intake.IntakeWorker.IngestPrFeedback | src/backend/workers/tracker_intake.py:601-659 | Adds one feedback task under the mapped execute, or nothing when unmapped or already there |
| Intake.IntakeWorker.IngestTrackerFeedback | src/backend/workers/tracker_intake.py:679-733 | Adds one feedback task under the execute, or nothing for the system's own or an already known comment |
| SettledRows.CommentableIff | src/backend/workers/tracker_intake.py:908-922 | An execute takes tracker comments exactly when it has no pull request and a tracker id and, for a finished triage that spoke in the thread, it is the last finished one of its fetch, for any other, it is estimate-only |
| SettledRows.CommentRows | src/backend/workers/tracker_intake.py:679-733 | A tracker comment adds one waiting task below its execute, field by field, unless a row for that comment is there |
| ExecuteWork.StepForIsEnabled | src/backend/workers/execute_worker.py:176-448 | Whatever the agent run amounts to, the worker has a step to take, after which the claimed task is no longer open |
| ExecuteWork.FeedbackFlow | src/backend/services/context_builder.py:181-209 | The execute that the built context names for a feedback task is the task's parent |
| ExecuteWork.ExecuteWorker.Settle | src/backend/workers/execute_worker.py:176-448 | The second transaction: from the claimed task and the run's outcome to exactly the protocol step that outcome stands for, failures included |
| SettledRows.FailedRows | src/backend/workers/execute_worker.py:222-448 | A crash writes the status alone; a reported or malformed run also leaves its report and clears the pull request |
| SettledRows.ExecuteRows | src/backend/workers/execute_worker.py:372-409 | A finished triage or implementation row holds its result and pull request, and gets one new delivery with the task's tracker id and pull request |
| SettledRows.ReviewRows | src/backend/workers/execute_worker.py:1415-1501 | Pull-request feedback without any pull request fails; otherwise it is done, its execute's result names it, and nothing is delivered |
| SettledRows.AnsweredRows | src/backend/workers/execute_worker.py:1503-1663 | A tracker comment that asks for nothing, or asks while no triage is ready, is done, stamps its execute and gets one delivery |
| SettledRows.StartedRows | src/backend/workers/execute_worker.py:574-701 | One that asks with a ready triage at hand is done without a delivery, and the root gets its implementation with the triage's brief and context unless it has one |
| SettledRows.ImplementedIffAsked | src/backend/workers/execute_worker.py:345-391 | In a ready cluster without implementation, the root has one after the settlement if and only if the comment asked for it; otherwise no execute row is new and the feedback has its delivery |
| SettledRows.ReadyTriageIff | src/backend/workers/execute_worker.py:648-664 | The triage started from is the last finished one under the fetch, with a brief that is not blank and the routing of a small task; an older one never is |
| SettledRows.DecisionResults | src/backend/services/triage_step.py:260-327 | The result of each size: brief and routing for 1 to 3 points, an escalation of the right kind and no brief from 5 on |
| ExecuteWork.ExecuteWorker.ProcessNextTask | src/backend/workers/execute_worker.py:176-448 | One pass with nothing in between is a claim of the next task followed by that step, and keeps the invariant |
| ExecuteWork.ClaimLasts | src/backend/workers/execute_worker.py:176-448 | A claimed task stays claimed, of its kind and ready for its settlement, over any steps that do not settle it, so other workers in between do not matter |
| ExecuteWork.ExecuteWorker.StartImplementationFromFeedback | src/backend/workers/execute_worker.py:574-646 | Starts the implementation from the latest ready triage, or replies as to any comment when there is none |
| ExecuteWork.ExecuteWorker.CreateImplementationFollowup | src/backend/workers/execute_worker.py:666-701 | Adds the implementation with its hand-off unless the root has one |
| ExecuteWork.ExecuteWorker.ResolveLatestReadyTriage | src/backend/workers/execute_worker.py:648-664 | Returns the last finished triage beside the feedback's execute if it is ready |
| ExecuteWork.ExecuteWorker.CompleteFeedback | src/backend/workers/execute_worker.py:1415-1663 | Finishes the feedback task and stamps its execute's result, which keeps brief, routing and delivery; tracker feedback also gets a delivery |
| ExecuteWork.ExecuteWorker.EnsureDeliverTask | src/backend/workers/execute_worker.py:1698-1744 | Adds a delivery below the task unless there is one |
| ExecuteWork.ExecuteWorker.MarkTaskDone | src/backend/workers/execute_worker.py:1665-1679 | Sets status, result and pull request of one row and nothing else |
| ExecuteWork.ExecuteWorker.MarkTaskFailed | src/backend/workers/execute_worker.py:1681-1696 | Sets the status, replaces the result by the report or clears it, and clears the pull request of one row |
| ExecuteWork.ExecuteWorker.FailWithoutReport | src/backend/workers/execute_worker.py:428-442 | The except branch writes the status of one row and leaves result and pull request alone |
| ClusterSafety.TriageOutcomeDecides | src/backend/services/triage_step.py:260-327 | A triage decision makes the finished task either ready or escalated, and asks for no tracker status |
| ClusterSafety.RestampKeeps | src/backend/workers/execute_worker.py:1547-1569 | Feedback on an execute keeps its identity, status, readiness and brief |
| DeliverWork.DeliverWorker.Settle | src/backend/workers/deliver_worker.py:54-197 | A claimed delivery posts its comment, then writes DONE for a result without delivery instructions and otherwise the status these ask for, if any, at the external id of the root fetch and nowhere else; then it is done, and any fault on the way fails it after what was already written |
| DeliverWork.DeliverWorker.Resolve | src/backend/workers/deliver_worker.py:213-272 | The tracker id and the result come from the task's context: a feedback's own result, otherwise its execute's |
| DeliverWork.TriageDeliveryIsSilent | src/backend/workers/deliver_worker.py:141-171 | Delivering a triage never writes the tracker's status, however often feedback rewrote the triage's result |
| DeliverWork.DeliverableUnlessNameless | src/backend/workers/deliver_worker.py:72-78 | In every reachable table a delivery finds a result; without faults it fails if and only if the tracker id is empty |
| Lineage.BuildLineage | src/backend/services/context_builder.py:223-244 | The walk to the root equals the recursive one, for every chain whose parents have smaller ids, missing parents included |
| Lineage.BuildTrackerLineage | src/backend/services/tracker_task_resolution.py:43-57 | The second implementation of the walk agrees with the first |
| Lineage.AncestryShape | src/backend/services/context_builder.py:223-244 | A lineage has one of five shapes, starts at the recorded root, and all its rows share that root and the fetch's tracker id |
| Lineage.FlowIsBuilt | src/backend/services/context_builder.py:36-131 | Every worker-owned task gets its context without error, feedback payload checks included; the nearest execute, used by the context, is the first one, used by the tracker lookup |
| Lineage.TrackerIsTheFetchs | src/backend/services/tracker_task_resolution.py:9-41 | The tracker task of any task is the one its cluster was fetched for |
| FactoryRuns.StartIsFloor | docs/vision/refs/sim.jsx:299-327 | The initial floor is in order and holds no ticket, whatever the head counts; each station has the idle agents asked for, one for 0 and none for a negative number |
| FactorySim.Simulator.Step | docs/vision/refs/sim.jsx:374-439 | One tick of the object, in place, is one tick of the specification |
| FactorySim.Simulator.MoveBelts | docs/vision/refs/sim.jsx:378-389 | The reverse loop that splices while it runs moves every belt ticket exactly as specified |
| FactorySim.Simulator.AssignStation | docs/vision/refs/sim.jsx:394-406 | The assignment loop is the specified one, under every strategy |
| FactorySim.Simulator.WorkStation | docs/vision/refs/sim.jsx:408-438 | The work loop is the specified one, whose effect StepMoves tells: each busy agent works one tick, finished tickets leave by their route |
| FactorySim.Simulator.ReconfigureAgents | docs/vision/refs/sim.jsx:485-497 | Reconfiguration in place is the specified one, with at least one agent per station |
| FactorySim.Simulator.constructor | docs/vision/refs/sim.jsx:299-327 | The floor starts empty and in order; an interval of 0 counts as not given |
| FactoryMoves.BeltKeeps | docs/vision/refs/sim.jsx:378-389 | Moving one belt position loses no ticket and leaves every ticket where its record says |
| FactoryMoves.AssignKeeps | docs/vision/refs/sim.jsx:394-406 | So does giving a waiting ticket to an idle agent |
| FactoryMoves.WorkKeeps | docs/vision/refs/sim.jsx:408-438 | So does a tick of work, rework and shipping included |
| FactoryMoves.DismissKeeps | docs/vision/refs/sim.jsx:492-495 | So does removing an agent, whose ticket goes back to the head of the queue |
| FactoryRuns.Conserved | docs/vision/refs/sim.jsx:357-497 | After any sequence of ticks and reconfigurations, whatever the random choices, the ticket count is ticks divided by the interval and equals queued plus working plus on belts plus shipped, each ticket in the one place its record names, busy agents unfinished, belts within their length |
| FactoryRuns.RunOnTime | docs/vision/refs/sim.jsx:375-376 | Tickets come exactly at the multiples of the interval, every tick for an interval below 1 |
| FactoryTicks.StepMoves | docs/vision/refs/sim.jsx:374-439 | What one tick does to every ticket and every agent: belts advance by one, a busy agent works on or finishes, a finished ticket goes back to station 2 exactly when station 3 or 4 drew so, else to the next station or out; an idle agent takes a waiting ticket for the drawn time or stays idle beside an empty queue; each station counts what it finished |
| FactoryTicks.StationsMove | docs/vision/refs/sim.jsx:391-439 | The same for the stations of one tick, none of which sees a ticket twice |
| FactoryTicks.NothingShipsEarly | docs/vision/refs/sim.jsx:357-497 | No ticket is shipped less than 386 ticks after it was created, over every run |
| FactoryTicks.NothingWaitsEarly | docs/vision/refs/sim.jsx:357-497 | The least age at which a ticket can wait at each of the six stations, over every run |
| FactoryExample.ShipsOnTime | docs/vision/refs/sim.jsx:374-439 | For every head count, every interval from 387 on and any strategies, the run with the shortest draws and nothing sent back ships the first ticket exactly 386 ticks after it came |
| FactoryLines.StepInOrder | docs/vision/refs/sim.jsx:374-439 | A tick keeps every order: belts and shipped tickets line up as they come, a new ticket and then the arrivals, the last in flight first, join the end of their queue, and without priority a queue only loses its head |
| FactoryLines.ReconfigureMeans | docs/vision/refs/sim.jsx:485-497 | A reconfiguration keeps the first agents of each station, hires idle ones or lets go from the end, and puts the tickets let go of before the queue in agent order; nothing else changes |
| FactoryQueues.NobodyIdles | docs/vision/refs/sim.jsx:337-355 | After the assignments of a tick a station has no waiting ticket or no idle agent |
| FactoryQueues.ServedInOrder | docs/vision/refs/sim.jsx:394-406 | Without priority a queue is served from its head, and what is left is its tail |
| FactoryQueues.ServedByAge | docs/vision/refs/sim.jsx:397-401 | With priority every ticket taken is at least as old as every ticket left waiting |
| FactoryOrder.ChooseIff | docs/vision/refs/sim.jsx:337-355 | The agent chosen is the idle one the strategy names, and no other: nearest from the new turn on going round, first, or first of the least loaded |
| FactoryOrder.NextHandOver | docs/vision/refs/sim.jsx:394-406 | Each assignment hands one ticket, the head of the queue or by priority the first of the oldest, to that agent for the drawn time, and changes nothing else |
| PollScheduler.IntakeSchedule.RunForever | src/backend/workers/tracker_intake.py:232-262 | With positive intervals a run wakes at exactly the multiples of either one, polls the tracker at every multiple of the one and feedback at every multiple of the other; all sleeps are positive if and only if both intervals are |
| PollScheduler.MultiplesAre | src/backend/workers/tracker_intake.py:232-262 | The list of polls holds each multiple up to the time once, in order, and nothing else |
| Base64Url.EncodeDecodes | src/backend/adapters/github_scm.py:282-289 | Padded URL-safe base64 decodes to the bytes it encodes |
| Base64Url.GroupsAre | src/backend/adapters/github_scm.py:282-289 | Three bytes are one number of 24 bits and their letters its base-64 digits, highest first; a short group is padded |
| Base64Url.AlphabetIs | src/backend/adapters/github_scm.py:282-289 | The letters are the URL-safe alphabet in its order |
| Base64Url.StripThenPad | src/backend/adapters/github_scm.py:282-301 | The stripped text has letters only, never a length of 1 modulo 4, and the padding put back is exactly what was taken off |
| Base64Url.DecodesIff | src/backend/adapters/github_scm.py:299-301 | Matched letters decode if and only if their number is not 1 modulo 4 |
| PrFooter.FooterReads | src/backend/adapters/github_scm.py:282-308 | A footer reads back as the metadata it was written for |
| PrFooter.SearchBefore | src/backend/adapters/github_scm.py:295-297 | A match cannot run across a line break, so text appended after one adds only its own matches |
| PrFooter.ComposedReads | src/backend/adapters/github_scm.py:928-932 | For every body, the composed body reads back as the metadata, unless the body already holds a footer, which is then the one that is read |
| InputBlock.BlockLooks | src/backend/adapters/linear_tracker.py:276-286 | What is written: the description without its trailing whitespace, an empty line and the block between its markers, or the block alone without a description |
| InputBlock.WrittenReads | src/backend/adapters/linear_tracker.py:238-286 | After a text without an opening marker, a written block reads back as its fields if and only if the JSON text does not hold the closing marker, and as nothing otherwise; the text around it is kept up to outer whitespace |
| InputBlock.TidyIff | src/backend/adapters/linear_tracker.py:238-273 | Taking a block out leaves no opening marker behind if and only if the first block is closed and none is opened after it |
| InputBlock.WrittenAnywhere | src/backend/adapters/linear_tracker.py:238-286 | After any text: a closed block of the text's own is what is read; an unclosed marker makes the written block unreadable; otherwise WrittenReads decides |
| InputBlock.RewrittenReads | src/backend/adapters/linear_tracker.py:1101-1146 | One claim or estimate on any description reads back if and only if the description is tidy and the JSON text free of the closing marker, or a closed block left over in the text happens to hold the same fields |
| InputBlock.BlockSurvives | src/backend/adapters/linear_tracker.py:1101-1146 | Over any sequence of claims and estimates a tidy description keeps its text and a single closed block with the fields the operations lead to |
| InputBlock.FoldMeans | src/backend/adapters/linear_tracker.py:1101-1146 | Those fields: claimed once claimed, the last estimate written, every other key as it was |
| InputBlock.Issue.ClaimTaskSelection | src/backend/adapters/linear_tracker.py:1101-1122 | Reads, changes and writes back the stored description as specified |
| InputBlock.Issue.UpdateTaskEstimate | src/backend/adapters/linear_tracker.py:1124-1146 | Reads, changes and writes back the stored description as specified |

## Left out

- Rows of a page that are not JSON objects, and the server's own narrowing of a list by time: the lists are as served
  during one run.
- FeedbackReader.ReadPrFeedback: does not take page cursor texts with a page below 1, which this adapter never prints;
  what a server answers to such a page number is its own choice.
- What Python's `int()` accepts beyond an optional minus sign and ASCII digits, and whitespace outside ASCII.
- Timestamps, bodies and states that are not strings, and everything of an item that no decision rests on (author,
  path, line, metadata from the pull-request body).
- The tracker feedback poll loop and Linear's comment reader, whose branches rest on an order of the remote list that
  is not stated. A tracker comment enters the protocol as one step, with the eligibility test of the execute.
- Whether an execute is estimate-only, and whether a comment asks for an implementation: keyword heuristics over free
  text, taken as inputs of a step.
- Attempt counters, timestamps, branch names, URLs, token usage, retrospective feedback and log entries of a task.
- Update times as a column: the claim takes them as an input, and in a run a claim of any waiting task is a step.
- More than one tracker: `tracker_name` is not a column.
- Parsing of the triage agent's output; its four templates all give a non-blank text.
- Failures between the statements of one transaction, which roll back; two workers on one row.
- Tracker comments, links, estimates and labels of a delivery beyond the fact that a comment was posted.
- ClusterTheorems.EditDuringTriageIsSeenAgain: about the next poll that sees the task with the same content; whether
  that poll reaches a triage is what EditReachesTriage decides.
- InputBlock.BlockSurvives: needs every JSON text on the way to be free of the closing marker; the exact effect of one
  that is not is stated for a single write, in WrittenReads. Key order inside an object is not modelled.
- PrFeedbackPoll.PollExecutePrFeedback: takes lists on which no call gets stuck, since the loop does not end on any
  other (FeedbackRuns.EndsIffNeverStuck).
- PrFeedbackTheorems.LaterComments: between two polls the saved cursor must be left alone; for an implementation
  nothing else writes it (CursorLasts), while an edit resets the whole context of a triage that still waits.
- ExecuteWork.ExecuteWorker.ProcessNextTask: both transactions run with nothing in between; what holds with other
  steps in between is ClaimLasts together with Settle.
- FactorySim.Simulator.Step: tickets and agents are values in lists of the object, not objects of their own, so
  aliasing between lists is modelled by names. Kinds, labels, logs, samples and metrics are display only; intervals
  and head counts are integers.
- PollScheduler.IntakeSchedule.RunForever: an unbounded run is covered by its bounded prefixes; polls take no
  simulated time.
- `createSim`, which `makeSim` supersedes.
- Stats, economics, retrospectives, settings, frontend, authentication, prompts and demo data.
