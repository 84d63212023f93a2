# A verified model of the pull-request review agent

The agent receives GitHub webhooks, queues one review task per event, and lets workers review the pull request with a
language model and publish the result as a GitHub review. This project models the parts of it whose correctness is not
obvious from one function, and proves what they promise. `dafny verify dfyconfig.toml` checks everything.

Code that works step by step is modelled by methods and classes, each proved against a specification; the theorems are
lemmas about these specifications, or invariants that every method of a class keeps. What the program cannot control - the
broker, the database connection, GitHub, the model, other processes, a crash - appears as a non-deterministic choice, as a
step of a machine, or as a parameter, and every theorem holds for all of them.

## What is modelled

* **The task protocol** (`TaskRows`, `TaskStore`, `TaskProtocol`, `NoTaskStranded`, `ScriptedRuns`, `StrandingRun`,
  `LiveAttempts`, `AttemptsBounded`, `StaleRecoveries`, `MultisetSums`, `RecoveryLoads`, `AttemptBudget`, `StaleScans`,
  `TaskEffects`, `TaskMessages`, `TaskWorker`). `Store` is the database: every status transaction, with the audit log as a refinement of the rows.
  `TaskProtocol` is one task between webhook, queue, workers, recovery scans and requeue as a machine over atomic effects;
  `TaskWorker` holds the programs themselves and proves that whatever they and everybody else do is a run of that machine, and
  which row they leave. `TaskEffects` and `TaskMessages` read every step in plain statuses, fields and copies of messages. A
  recovery is three steps: its scan reads the row's attempt count, it sends a retry whose delay runs from then on, and once
  the broker has confirmed it marks the row; each process has one such recovery of the task under way at most.
  - No run strands a retrying task *exactly when* a single attempt is configured or the shortest retry delay exceeds the
    recovery's wait for the confirmation and its write together (`NeverStrandedIff`). With the shipped defaults (30 s
    against 10 s and 5 s) it holds. Otherwise there is a run, given step by step: the recovery's retry is delivered before
    the recovery marks the row, the mark turns the row of the new worker into a retrying one, and its dead-lettering then
    finds nothing running. A base delay of ten seconds is such a configuration (`TenSecondsIsTooShort`); in terms of the
    service's options the base delay has to exceed 15 seconds (`ServiceNeverStrandsIff`).
  - Between two requeues a task is claimed at most `maxAttempts` times as long as no recovery marks the row with an attempt
    that the row already counts (`AttemptsAreBounded`). The store sets the attempt count without comparing it, so a recovery
    with an outdated reading resets it: without that assumption the bound holds exactly for `maxAttempts == 1`, even for one
    process (`OneTooMany`, `BoundedForAnyRecoveryIff`), and `n + 1` processes can bring about `n + 2` claims
    (`AsManyClaimsAsProcesses`). But the resets cannot go on: every run has at most
    `maxAttempts * (1 + processes * (processes + 1) ^ (maxAttempts - 2))` claims between two requeues (`ClaimsAreBounded`).
* **The PR lock** (`PrLock`), timed. Mutual exclusion holds in every run exactly when the lock's time to live exceeds the
  longest section, 335 seconds if every operation takes as long as it may; the clamp to 360 seconds in `New` suffices.
* **Publishing** (`GitHubReviews`, `ReviewDelivery`). Over any sequence of attempts with any faults one review at most is
  posted for a task, at a commit that is fixed once and with the text of the one result that was saved; the listing it relies
  on is complete or fails.
* **Evaluator matching** (`EvalFindings`, `LocationMatching`, `GreedyScoring`). The augmenting-path matcher finds a maximum
  matching; the greedy scorer finds at least half of one, and for every size there is a case where it finds no more.
* **Unified diffs** (`Text`, `UnifiedDiff`, `PatchReaders`, `DiffTheorems`, `ReaderAgreement`, `PromptSections`). A printer in
  the format of POSIX.1-2017, `diff` utility, "Diff -u or -U Output Format", and three hunk walkers. The strict one accepts
  exactly the lines the hunks show of the new file; the two lenient ones agree with it exactly when no added line starts
  with `++`, since they take `+++...` for a file header (`LookalikeExample` is the smallest such patch).
* **The evidence filter** (`EvidenceFilter`, `FileContexts`, `HonestOutputs`, `HonestTexts`, `HonestDiffs`), with JSON decoding as a parameter. When everything
  the model was shown is what the tools and the service print for real files, a kept reference is a line of the file, or the
  snippet of one: search results clip lines of more than 500 characters, and exactly the lines that clipping changes can be
  misquoted (`KeptReferencesReadIff`). What else would mislead the filter has its own condition and example: a cut after a
  file without a patch (`PromptReadsIff`), a file context cut within a file (`ContextReadsIff`), and file content that looks
  like a heading (`HeadingMisleads`), like a hunk (`HunksMislead`) or like a numbered line (`StrayNumberMisleads`).
* **The agent loop** (`AgentTranscript`, `AgentRequests`, `AgentLoop`): budget, read cache, pairing of calls and answers, and
  what each request tells the model.
* **The rate limiter** (`RateLimiter`). The window is configured in nanoseconds but the key lives for whole milliseconds. An
  interval of one window holds at most `2 * limit - 1` grants in every run exactly when the window is a whole number of
  milliseconds, at most `2 * limit` exactly when it is at least one millisecond, and anything below that: then the script is
  told `PEXPIRE 0`, which deletes the counter. The largest number is attained for every window of at least a millisecond.
* **Code retrieval** (`RetrievalQuery`, `RankedChunks`, `CodeRetrieval`), **batched fetching** (`FetchFiles`) and the **file cache**
  (`FileCache`).

## Model

| member | source | states |
|---|---|---|
| TaskRows.UpdatesFollow | internal/store/mysql.go:278-541 | every audited update moves along the allowed status changes; superseded is entered only from running and never left |
| TaskStore.SupersededIsFinal | internal/store/mysql.go:298-306 | in an audit history that tells a row's story, superseded comes from running and is the last entry |
| TaskStore.Store.CreateTask | internal/store/mysql.go:221-276 | a known delivery ID returns the existing task and changes nothing; otherwise a received row with a first audit entry; the audit chain is kept |
| TaskStore.Store.UpdateTaskStatus | internal/store/mysql.go:278-336 | whole new store: the guarded update and its audit entry, or the refusal; audit chain kept |
| TaskStore.Store.ClaimTask | internal/store/mysql.go:338-389 | succeeds iff queued or retrying and due, or running with a higher attempt; whole new store; audit chain kept |
| TaskStore.Store.MarkTaskRetry | internal/store/mysql.go:391-441 | refused iff not running; whole new store; audit chain kept |
| TaskStore.Store.MarkTaskDeadLetter | internal/store/mysql.go:443-491 | refused iff not running; whole new store; audit chain kept |
| TaskStore.Store.RequeueTask | internal/store/mysql.go:493-541 | refused iff not dead letter; resets the attempt count; audit chain kept |
| TaskStore.Store.TouchQueuedTask | internal/store/mysql.go:543-562 | moves the time of a received or queued row only |
| TaskStore.Store.PrepareReviewDelivery | internal/store/review_delivery.go:36-58 | inserts the snapshot once, at the task's commit if it has one, and returns the stored one |
| TaskStore.Store.CreateReviewResult | internal/store/mysql.go:688-743 | at most one result per task, and it stays what it is |
| TaskStore.Store.MarkReviewDelivered | internal/store/review_delivery.go:60-96 | a recorded review ID is never replaced by another; task done; audit chain kept |
| NoTaskStranded.RetryingHasMessage | internal/worker/worker.go:157-406 | in a safe configuration - one attempt, or delays longer than the recovery's confirmation wait and write together - a retrying task has a main or retry message in every reachable state |
| NoTaskStranded.RetryingMovesOn | internal/worker/worker.go:258-318 | that message leads on: once due, a worker that finds the PR free claims the task |
| NoTaskStranded.CrashLeavesClaimable | internal/worker/worker.go:384-406 | a crash between publishing a retry and marking the row leaves a message that ClaimTask accepts through its running clause |
| StrandingRun.NeverStrandedIff | internal/worker/worker.go:215-237 | no run strands a task iff only one attempt is configured or every retry delay exceeds the recovery's wait for the confirmation plus its write's timeout |
| StrandingRun.TenSecondsIsTooShort | internal/worker/worker.go:215-237 | a run that strands a task with a retry base delay of ten seconds against the ten and five seconds the recovery may take |
| LiveAttempts.BelowMaximum | internal/worker/worker.go:376-447 | in every run, outdated recoveries included, live rows and messages stay below maxAttempts |
| LiveAttempts.MessagesHaveTask | internal/worker/worker.go:258-265 | in every run a message's task exists, so the branch that discards the message of an unknown task is never taken |
| AttemptsBounded.AttemptsAreBounded | internal/worker/worker.go:376-447 | if no recovery marks a running row with an attempt it already counts: between requeues, claims count strictly increasing attempts, at most maxAttempts of them |
| StaleRecoveries.OneTooMany | internal/store/mysql.go:404-420 | one process whose reading has become outdated brings about maxAttempts + 1 claims, for every configuration that retries |
| StaleRecoveries.AsManyClaimsAsProcesses | internal/store/mysql.go:404-420 | n + 1 processes that have all read the first attempt bring about n + 2 claims, for every n |
| StaleRecoveries.BoundedForAnyRecoveryIff | internal/worker/worker.go:157-176 | without any assumption on recoveries, maxAttempts bounds the claims of all runs iff it is one |
| RecoveryLoads.ResetPays | internal/store/mysql.go:404-420 | a mark that resets the count uses up more than all processes together gain by the lower count |
| AttemptBudget.ClaimsAreBounded | internal/worker/worker.go:157-237 | in every run, outdated recoveries included, the claims between two requeues are at most maxAttempts * (1 + processes * (processes + 1)^(maxAttempts - 2)), and maxAttempts if that is one |
| TaskEffects.StepMovesRow | internal/store/mysql.go:278-541 | what every step of the machine makes of the row it finds, in statuses and fields: which rows it leaves alone, which status, error, attempts, next retry and time it writes |
| TaskEffects.RefusalsAre | internal/store/mysql.go:298-562 | which rows each transaction refuses, in statuses, times and attempts |
| TaskMessages.StepConserves | internal/worker/worker.go:178-447 | the copies of any message change by exactly what the step publishes or the broker delivers again; only an acknowledgement takes one away |
| StaleScans.ListTasks | internal/store/mysql.go:628-686 | the matching rows oldest first, complete up to the limit |
| StaleScans.Scan | internal/worker/worker.go:157-186 | every running, received or queued row is listed once stale, unless a full batch of rows at least as old is; retrying rows never |
| StaleScans.ScanAdvances | internal/worker/worker.go:178-213 | a row left out by a scan has as many fewer rows ahead of it as the scan handled: a full batch unless publishes failed |
| TaskWorker.RetryDelay | internal/worker/worker.go:449-470 | the doubled base capped at the maximum, plus jitter within the room left; never below the smaller of base and maximum |
| TaskWorker.ServiceNeverStrandsIff | internal/worker/worker.go:76-92 | with the service's timeouts and for all options: no run strands a task iff one attempt is configured or the base delay is defaulted or exceeds 15 seconds |
| TaskWorker.System.Process | internal/worker/worker.go:239-336 | a run of the machine under any interference and crashes; exactly which steps the worker takes for each status and each fault, the verdict of the review included; the row it leaves, in statuses and fields: done without error after a success, superseded, retrying with the next attempt and the time it was published for, dead letter at the last attempt, failed if the publish was not confirmed, and untouched before a claim; the task is always there; the message is acknowledged only after it was decided on and is in the queue otherwise |
| TaskWorker.System.DeferTask | internal/worker/worker.go:338-374 | a deferred message is republished once and acknowledged, or stays in the queue |
| TaskWorker.System.Fail | internal/worker/worker.go:376-429 | publish before mark, retry below maxAttempts with a proper delay and the time it leads to, dead letter otherwise; the row is left accordingly; a run of the machine |
| TaskWorker.System.RecoverStaleRunning | internal/worker/worker.go:157-237 | an idle process recovers exactly a running task older than the limit, by the attempt count it has read: the retry is sent with a proper delay, then confirmed, then marked, each only after the one before; or the task is dead-lettered or failed at the last attempt; what the last step does to the row; a run of the machine, with everybody else moving in between |
| TaskWorker.System.RecoverStaleQueued | internal/worker/worker.go:178-213 | a fresh message, then a new time on the row only if the publish was confirmed; a run of the machine |
| TaskWorker.System.Handle | internal/webhook/handler.go:49-128 | a request that fails a check, or repeats a delivery, changes nothing and gets that answer; otherwise create for the payload's commit, queued, publish, and failed only after an unconfirmed publish, in that order; what the last step does to the row; accepted only with the task's message in the queue |
| TaskWorker.System.NotStranded | internal/worker/worker.go:239-447 | wherever these programs stop, a safe configuration has not stranded the task |
| PrLock.RedisLocker.Acquire | internal/lock/lock.go:32-52 | takes a free or expired key for the token; refuses empty keys and non-positive TTLs; other keys untouched |
| PrLock.RedisLocker.Release | internal/lock/lock.go:60-81 | deletes only a key that holds this token |
| PrLock.LockTTL | internal/worker/worker.go:93-104 | the TTL New chooses is seven minutes by default and never below six, keeps larger options, and exceeds the longest section |
| PrLock.ExclusiveUnderNew | internal/worker/worker.go:283-335 | in every timed run one worker at a time is between acquire and release, still holds the lock, and its row is not stale |
| PrLock.ExclusiveIff | internal/worker/worker.go:17-26 | mutual exclusion in every run iff the TTL exceeds the longest section |
| GitHubReviews.GitHub.ListPullRequestReviews | internal/github/reviews.go:17-31 | a successful listing holds every review there was when it began; it fails only with a lost request or 100 full pages |
| GitHubReviews.GitHub.CreatePullRequestReviewAtCommit | internal/github/reviews.go:33-47 | posts at most one comment review with this commit and body; a lost reply may hide that it did |
| ReviewDelivery.Reviewer.PublishSavedReview | internal/review/delivery.go:66-89 | posts nothing if a review carries the marker when it begins, if the review is recorded already, or if marker or commit is missing; what is posted begins with the saved result's text and ends with a blank line and the marker; success means a recorded review ID, and without lost requests a publishable snapshot succeeds |
| ReviewDelivery.Reviewer.ResumeReview | internal/review/delivery.go:20-44 | publishes a saved result, with that result's text, or prepares a snapshot: it goes on only if the head it has read is the snapshot's commit, and reports a moved head only if it is not; keeps the delivery invariant; fails only with a lost request or nothing to do |
| ReviewDelivery.Reviewer.FinishReview | internal/review/delivery.go:46-64 | reads the head once more: a result is saved, its own, only if that is the snapshot's commit, and a moved head is reported only if it is not; saves before publishing; whatever is posted shows the saved result and the marker; keeps the delivery invariant; fails only with a lost request or nothing to do |
| ReviewDelivery.Reviewer.ReviewPR | internal/review/service.go:62-122 | one attempt: without faults it completes with a recorded review, finds the head moved, or can do nothing; it saves its own result, only if none was saved, and only after reading the snapshot's commit as the head before and after the review; whatever is posted shows the saved result and the marker; keeps the delivery invariant |
| ReviewDelivery.Reviewer.Attempts | internal/review/delivery.go:20-89 | over any attempts, findings and faults: at most one review posted, at the snapshot's commit, with the text of the one saved result and the snapshot's marker, whichever attempt posts it; the result, commit, marker and a non-zero review ID never change; the commit is the task's own |
| ReviewDelivery.OneMarkedReview | internal/review/delivery.go:73-89 | with distinct markers, at most one review on GitHub carries the task's marker, it shows the saved result, and a recorded ID is its ID |
| ReviewDelivery.MarkerTellsToken | internal/review/delivery.go:73-73 | different tokens make different markers |
| EvalFindings.PrimaryMatchIsThreeLines | eval/eval.go:281-289 | for all 64-bit lines: a location match is the same file within three lines, or a distance that wraps around to that, or one of 2^63 |
| EvalFindings.AcceptedMatchIsMembership | eval/eval.go:267-279 | otherwise a prediction matches iff its very file and line, both given, are on the list of accepted locations |
| EvalFindings.DistantLinesMatch | eval/eval.go:281-310 | the smallest 64-bit line matches line zero: the distance is its own negation |
| LocationMatching.Assign | eval/eval.go:317-333 | an augmenting path is taken if there is one; a failed search leaves a closed set that bounds every rival matching |
| LocationMatching.CountLocationMatches | eval/eval.go:312-339 | the size of a maximum one-to-one matching, for all inputs |
| GreedyScoring.GreedyIsHalf | eval/eval.go:194-223 | no one-to-one assignment within the same category exceeds twice the greedy one |
| GreedyScoring.HalfIsTight | eval/eval.go:194-223 | for every n there is a case whose greedy assignment has n pairs while another one has 2n |
| GreedyScoring.SelectMatch | eval/eval.go:201-210 | the first free expectation the prediction matches in its category, else a location match of another category |
| GreedyScoring.ScorePredictions | eval/eval.go:194-229 | counters, false positives and tallies are those of the greedy assignment |
| GreedyScoring.Evaluate | eval/eval.go:149-266 | every counter of the report: predictions, expectations, pairs, largest location matchings, located and confirmed predictions and the confirmed ones paired with either grade are sums over the scored cases; scored, failed, negative and false-positive cases are the numbers of such inputs; each case lists its leftover predictions and missed expectations; all ratios lie between zero and one |
| UnifiedDiff.HeaderRoundTrip | internal/review/diff_evidence.go:42-74 | a printed hunk header parses back to its own numbers |
| PatchReaders.PatchEvidence | internal/review/diff_evidence.go:46-111 | the walker accepts exactly the numbered lines of its specification |
| PatchReaders.ChangedLines | internal/githubtools/tools.go:475-514 | the loop reports exactly the numbers of its specification |
| PatchReaders.ChangedLinesForPath | internal/githubtools/tools.go:468-514 | the changed lines of the path's first patch that is not blank |
| PatchReaders.DiffReferenceEvidence | internal/review/service.go:438-475 | the raw walker accepts exactly the numbered lines of its specification |
| PatchReaders.PairsAreLineNumbers | internal/review/diff_evidence.go:46-111 | whatever a patch says, accepted lines have 64-bit line numbers from one on: behind the last one the walker wraps around and takes nothing more |
| PatchReaders.ChangesAreLineNumbers | internal/githubtools/tools.go:475-514 | the same for the changed lines |
| DiffTheorems.PatchEvidenceExact | internal/review/diff_evidence.go:42-111 | on a printed diff from old to new, a quotation is accepted iff a hunk covers the line and the new file has that text there |
| DiffTheorems.TakeLinesSound | internal/githubtools/tools.go:657-674 | a patch cut by lines shows exactly the quotations of the lines kept, and none the full patch does not show |
| ReaderAgreement.ChangedLinesExact | internal/githubtools/tools.go:468-514 | the changed lines are the new-side numbers of the added lines, iff none starts with two plus signs |
| ReaderAgreement.PathChangesExact | internal/githubtools/tools.go:468-473 | among a pull request's files, the changed lines of a path are its added lines' numbers, iff none starts with two plus signs |
| ReaderAgreement.AddedLinesAreQuotable | internal/githubtools/tools.go:475-498 | added lines come in strictly increasing order and each can be quoted with its text |
| ReaderAgreement.ReadersAgree | internal/review/service.go:438-475 | the raw walker accepts the same quotations as the strict one, iff no added line starts with two plus signs |
| ReaderAgreement.LookalikeExample | internal/githubtools/tools.go:475-498 | a one-line file whose added line neither lenient walker reports |
| PromptSections.BuildDiff | internal/review/service.go:728-742 | the loop prints the specified text, cut included |
| PromptSections.RawSections | internal/review/service.go:405-427 | the loop computes the specified section map |
| PromptSections.SectionsRoundTrip | internal/review/service.go:405-427 | for any limit: the sections of the prompt are exactly the printed files' patches with a newline, and with the remark on a cut after the last one |
| PromptSections.RawReferenceEvidence | internal/review/service.go:387-403 | looks the quotation up in its file's section, in any order of the map |
| PromptSections.PromptLookup | internal/review/service.go:387-403 | looking a quotation up in the prompt is looking it up in that file's own section, if the limit let it be printed |
| PromptSections.PrintedIsClean | internal/review/service.go:728-742 | any printed patch can be carried by the prompt, whatever its lines say |
| PromptSections.PromptQuotesNewFile | internal/review/service.go:387-475 | from the prompt of a plain change, cut or not, a quotation is accepted iff the file is printed and a hunk shows that line of the new file |
| EvidenceFilter.ReferenceEvidence | internal/review/service.go:245-275 | found iff some parsed source matches |
| EvidenceFilter.ParsedIsLegacyOrDiff | internal/review/service.go:344-385 | matching on the parsed corpus is the reference implementation or a match in a decoded diff |
| EvidenceFilter.CompareMatching | internal/review/service.go:344-385 | the parsed matching misses nothing the reference implementation finds, and finds more exactly where only a decoded diff shows the quotation |
| EvidenceFilter.StaticCheckEvidence | internal/review/service.go:277-297 | found iff a failed, completed check with that command printed the excerpt |
| EvidenceFilter.StaticCheckSupportsIff | internal/review/service.go:331-335 | a static check supports a finding iff some text of the corpus names its command and some decoded check with that command ran to its end, failed and printed the excerpt |
| EvidenceFilter.SupportedEvidence | internal/review/service.go:322-342 | keeps exactly the supported evidence, in order |
| EvidenceFilter.NormalizeFindings | internal/review/service.go:299-320 | kept findings are normalized, the others reported with their reason, both in order |
| EvidenceFilter.ConfirmedStaysIff | internal/review/service.go:313-316 | a kept finding stays confirmed iff it was and is not about performance; its evidence is what is supported; nothing else changes |
| EvidenceFilter.Partition | internal/review/service.go:299-320 | every finding is kept or rejected, and kept ones stay in order |
| EvidenceFilter.Idempotent | internal/review/service.go:299-320 | filtering again keeps everything as it is |
| EvidenceFilter.Monotone | internal/review/service.go:211-239 | extra tool output never drops a kept finding or its evidence |
| FileContexts.BuildFileContext | internal/review/service.go:698-717 | the loop prints each file in a section of its own, cut to the limit |
| FileContexts.ContextLookup | internal/review/service.go:476-484 | from file content without headings and hunk headers exactly the shown lines can be quoted, at their numbers |
| FileContexts.ContextReadsIff | internal/review/service.go:698-717 | every quotation of such a file is one of its lines, iff it is not cut or goes on with the remark itself |
| FileContexts.HeadingMisleads | internal/review/service.go:405-427 | a file with a line that reads as another file's heading: every line after it can be quoted as that file's |
| FileContexts.HunksMislead | internal/review/service.go:429-436 | a file that holds a diff is quoted exactly by the numbers of that diff |
| HonestDiffs.KeptReferencesRead | internal/review/service.go:245-275 | under any corpus of what the tools and the service print for real files, a kept reference is a line of the file at the finding's own place, or the clipped snippet of that line; the line itself if clipping leaves it alone |
| HonestDiffs.KeptReferencesReadIff | internal/githubtools/search_references.go:309-319 | every reference kept under every such corpus is a line of its file, iff no trimmed line has more than 500 characters, except one of 504 that itself ends in the ellipsis |
| HonestOutputs.SnippetReadsIff | internal/githubtools/search_references.go:309-319 | a snippet that supports a quotation makes it the file's line, iff clipping leaves that line alone |
| HonestDiffs.FiveHundredAndOne | internal/githubtools/search_references.go:309-319 | a file whose only line has 501 characters: its search result makes the filter keep a reference that is not a line |
| HonestTexts.PromptReadsIff | internal/review/service.go:728-742 | every quotation from a prompt of plain changes, for any limit, is a line of the file it names, iff a cut does not follow a file without a patch |
| HonestOutputs.StrayNumberMisleads | internal/codecontext/codecontext.go:311-323 | any line of file content that begins with a number and a colon is believed, whatever it comes from |
| AgentTranscript.NormalizeToolCallIDs | internal/agent/agent.go:280-289 | empty call IDs are filled from round and position, nothing else changes |
| AgentTranscript.CallIdsAreDistinct | internal/agent/agent.go:280-289 | IDs generated for different rounds or positions differ |
| AgentTranscript.CorpusBytes | internal/review/agent_service.go:126-134 | the evidence corpus is as large as the accepted outputs |
| AgentTranscript.AppendRound | internal/agent/agent.go:210-231 | a round with all its answers keeps every call paired with its answer |
| AgentTranscript.TranscriptIsUnique | internal/agent/agent.go:107-231 | opening, assistant messages and invocations determine the conversation: there is one well-paired sequence of messages with them |
| AgentTranscript.EvidenceIsShown | internal/agent/agent.go:291-299 | accepted output is evidence and is shown to the model as it is; of a failed or rejected call it sees the error, of a repeated read the reference |
| AgentTranscript.PrefixFreeSuffices | internal/agent/agent.go:124-141 | cache keys identify tool and arguments if no tool name begins another |
| AgentTranscript.ProductionKeysDetermineReads | internal/review/agent_service.go:120-120 | the tools the service caches have that property |
| AgentTranscript.KeysCanCollide | internal/agent/agent.go:124-141 | without it two different reads can share a key |
| AgentRequests.AnsweredHistory | internal/agent/agent.go:302-331 | after an answer nothing more is sent, or one request that continues the same conversation with that answer and its error |
| AgentRequests.HistoryTells | internal/agent/agent.go:184-188 | each request of such a history opens with the prompts and tells what was said and found until then |
| AgentLoop.AgentRun.Execute | internal/agent/agent.go:120-162 | which calls are answered from the cache, refused, run, accepted or rejected; accepted bytes and remaining add up to the maximum, one acceptance per cache key; outputs too large are counted until one is accepted, and after two of them, or once no more than the low budget is left, no tool runs and it stays so |
| AgentLoop.AgentRun.ExecuteTool | internal/agent/agent.go:261-278 | can be called only while more than the low budget is left and fewer than two outputs in a row were too large |
| AgentLoop.AgentRun.CachedReadsAreSame | internal/agent/agent.go:124-141 | a cached invocation names an earlier accepted one of the same tool with equal decoded arguments |
| AgentLoop.AgentRun.RepeatedReadsAreCached | internal/agent/agent.go:124-141 | a cacheable read with the decoded arguments of an accepted one runs no tool and is answered by a reference to such a read |
| AgentLoop.AgentRun.EvidenceWithinBudget | internal/agent/agent.go:147-160 | corpus bytes and remaining add up to the maximum |
| AgentLoop.AgentRun.Round | internal/agent/agent.go:210-231 | calls are executed, recorded and answered in order; the transcript grows by exactly this assistant message and the results of its calls |
| AgentLoop.AgentRun.ValidateFinal | internal/agent/agent.go:302-331 | one repair at most, sent with the whole conversation, the rejected answer and what is wrong with it; an answer is one the validation accepts |
| AgentLoop.AgentRun.Run | internal/agent/agent.go:91-259 | every request opens with the prompts, says of the model exactly the prescribed round and its replies so far, and shows it the results of exactly the calls asked for until then; requests of the loop end with what is left of the budget and of the steps, and are sent only above the low budget; the final request comes only once exhausted or after all steps; a repair quotes the rejected answer and comes last; every request is well paired and fits the context budget; at most maxSteps+2 requests in all and two once exhausted; with an answer every call asked for was carried out in order, and the answer is the last reply, valid against exactly the collected evidence, and empty only as a repair |
| RateLimiter.EachLifeRationed | internal/limiter/limiter.go:47-56 | each life of the key grants at most limit calls |
| RateLimiter.BoundedIff | internal/limiter/limiter.go:28-70 | in every run, an interval of one configured window holds fewer than twice the limit of grants iff the window is a whole number of milliseconds, and at most twice the limit iff it is at least a millisecond |
| RateLimiter.LateExpiryBounds | internal/limiter/limiter.go:47-56 | if the key is found through the millisecond it expires in, every window of at least a millisecond has fewer than twice the limit |
| RateLimiter.BoundIsTight | internal/limiter/limiter.go:47-70 | for every window of at least a millisecond some run attains the largest number: twice the limit with a fraction, the limit for one millisecond, one less than twice the limit otherwise |
| RateLimiter.ScopesShareKeyIff | internal/limiter/limiter.go:59-63 | two scopes share a key iff they differ in letter case and outer white space only |
| RateLimiter.RedisLimiter.Script | internal/limiter/limiter.go:47-56 | the script's steps compute the specified call and report whether it was granted |
| RateLimiter.RedisLimiter.Wait | internal/limiter/limiter.go:58-93 | refuses a blank scope untouched; success means a grant in that scope just now; a call the script would grant at once is granted; otherwise it asks again until Redis fails or the caller's rounds are used up; every scope's record stays valid |
| RetrievalQuery.FieldsExact | internal/githubtools/retrieval.go:60-60 | the fields of the query are exactly its maximal runs of word characters |
| RetrievalQuery.ParseTerms | internal/githubtools/retrieval.go:60-71 | each such run once, ascending |
| RankedChunks.SortAllSorts | internal/githubtools/retrieval.go:176-185 | the specified order sorts and keeps all chunks |
| RankedChunks.TopStep | internal/githubtools/retrieval.go:174-188 | append, any sort and truncate turn the best k of a stream into the best k of the longer stream |
| RankedChunks.TopIsFirst | internal/githubtools/retrieval.go:176-188 | the best k are the first k of any full sort |
| RankedChunks.KeptScoresHigher | internal/githubtools/retrieval.go:176-188 | a kept chunk never has a lower score than a dropped one; with equal scores its path is not greater, and in one file it does not start later |
| RankedChunks.LessIsLexical | internal/githubtools/retrieval.go:181-182 | paths compare by their first different character, a proper prefix first |
| CodeRetrieval.ScoreWindow | internal/githubtools/retrieval.go:152-160 | four points per term in the text, one per term in the name |
| CodeRetrieval.KeptExact | internal/githubtools/retrieval.go:146-192 | the scan keeps exactly the scoring windows that fit, except a last one inside a kept predecessor |
| CodeRetrieval.TooLargeExact | internal/githubtools/retrieval.go:152-192 | the windows left out as too large are exactly the oversized scoring ones, except one inside a kept predecessor |
| CodeRetrieval.WindowsAreAccountedFor | internal/githubtools/retrieval.go:144-192 | a window is kept or left out as too large iff some term occurs in its text or its file's name and it is not inside a kept predecessor |
| CodeRetrieval.KeptQuoteTheFile | internal/githubtools/retrieval.go:144-167 | a kept chunk holds up to 20 successive lines of its file by their numbers, each trimmed, from every 16th line on |
| CodeRetrieval.Scan.ScanFile | internal/githubtools/retrieval.go:144-192 | adds exactly a file's candidates to the stream and flags an oversized one |
| CodeRetrieval.Scan.ScanArchive | internal/githubtools/retrieval.go:97-193 | an error only for a cancellation or an entry or end marker that cannot be read; otherwise all entries are searched up to the first whose header or body the archive limit cuts, or that is one file more than the limit, and scanned_files counts the files opened; scan_truncated tells exactly whether an entry was skipped or cut off, or the limit was reached at the end marker |
| CodeRetrieval.Scan.Finish | internal/githubtools/retrieval.go:194-210 | the longest prefix that fits, or a panic iff no prefix fits |
| CodeRetrieval.Scan.Execute | internal/githubtools/retrieval.go:97-210 | without an error, the output is the longest fitting prefix of the best k candidates of all files before the entry where the limits stop the scan; results_truncated iff a scoring window is missing; scanned_files and scan_truncated are those of that scan |
| CodeRetrieval.RetrieveCode | internal/githubtools/retrieval.go:55-210 | which query and number of results is refused; otherwise the best chunks, for exactly the query's terms, of all files before the first entry at which the archive limit or the file limit is reached, and what the output says is missing |
| FileCache.Toolkit.CachedFileContent | internal/githubtools/tools.go:155-169 | the cache changes no answer, keeps what it has and stores what fits |
| FileCache.Toolkit.StoreFileCache | internal/githubtools/tools.go:171-188 | stores a non-empty file of acceptable size if the total stays within budget; the byte counter is the size of what is cached |
| FetchFiles.FetchBatch | internal/review/service.go:667-688 | every slot holds its own file's result, in whatever order the fetches finish; after a cancellation it may be empty |
| FetchFiles.FetchFileContents | internal/review/service.go:651-696 | exactly the first MaxFileContexts readable, fetched, non-blank files in input order, and no successful fetch is discarded; after a cancellation some of them may be missing |

## Left out

- HTTP, GitHub, AMQP, Redis and SQL as such: only the atomic effects they expose are modelled.
- TaskWorker.System.Process: invalid repository names and panics are not modelled. A task with an invalid name is never claimed, and the dead-letter path before the claim leaves its row unchanged, because MarkTaskDeadLetter needs a running row, unless the publish fails and the row is marked failed; after a panic the lock is released before the deferred `fail` runs, outside the section modelled here.
- TaskWorker.System.Handle: what decoding makes of a request's body and whether its signature is right are parameters; the machine knows one delivery, that of its task.
- The no-op locker: without Redis there is no mutual exclusion, and PrLock says nothing.
- A write that times out at the client but commits later, and a POST accepted after its attempt has ended: a write or post happens during its call or not at all.
- Reading a task, taking the lock and claiming the task are one step; so are the store's transactions.
- TaskProtocol projects the system to one task; busy pull requests of other tasks appear as deferrals.
- `done` is not absorbing, and no progress is claimed for `received` tasks: a late failed write can overwrite `done`, and `received` tasks are rescanned but never claimable, as in the code.
- AttemptsBounded.AttemptsAreBounded: assumes that no recovery marks a running row with an attempt that the row already counts; without that the bound is false, as StaleRecoveries shows, and AttemptBudget has one that holds.
- AttemptBudget.ClaimsAreBounded: the bound is not claimed to be the smallest; StaleRecoveries gives runs with more claims than maxAttempts.
- RateLimiter.BoundedIff: instants are those of Redis's millisecond clock; a call may really happen up to a millisecond after the reading it gets.
- Message expirations: the client truncates a retry's delay to whole milliseconds; the delays of TaskProtocol are those the broker sees.
- Redis expiry: a key is taken to be gone from its expiry time on. Redis may still find it in that millisecond, which delays acquisitions and grants, and matters for RateLimiter.BoundedIff: that the bound fails for windows with a fraction of a millisecond, and the bound RateLimiter.BoundIsTight attains for them, rest on the key being gone at once; RateLimiter.LateExpiryBounds is the other case.
- ReviewDelivery.OneMarkedReview: assumes that nobody else writes the task's random marker, that reviews are not edited, and that GitHub's review IDs are not zero.
- Floating point: ratios are stated on their integer numerators and denominators.
- JSON, Unicode and invalid UTF-8: decoding is a parameter, a character stands for a byte, and letter case is ASCII. In HonestOutputs a character stands for a code point: the program clips a snippet by code points, once it has more than 500 bytes, and no text of at most 500 bytes has more code points than that.
- Overflow of the doubled retry delay: durations are unbounded, so a maximum above 146 years is not modelled faithfully.
- CodeRetrieval.Scan.Execute: the order is stated for files with distinct names.
- HonestDiffs.KeptReferencesRead: assumes that the prompt's patches are plain (see ReaderAgreement.ReadersAgree), that shown file content has no line like a heading or a hunk header, that no remark on a cut is misread, and that no line of a symbol's heading begins like a numbered line - a destructuring pattern spread over several lines could; the lemmas beside it show what happens otherwise.
- The texts of error messages, log lines and prompts.
- FileCache.Toolkit.CachedFileContent: the cache is keyed by path only, as in the code; one toolkit is taken to read one ref.
- Static-check execution, symbol lookup, admin pages, configuration and migrations: they would add easier members only.
