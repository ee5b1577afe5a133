# Mailoo, verified

A Dafny model of the parts of Mailoo (an e-mail server for MCP clients) whose correctness spans many
calls, processes or characters: the scheduled-send queue and the lock files under it, the lease that
decides which process runs the background writers, the redaction of secrets in error texts, and the
stateful algorithms for threads, new mail, send limits, connections, ManageSieve, the audit log, HTTP
sessions, hook batches and IPv6 addresses. `dafny verify dfyconfig.toml` checks all of it.

How it is built:

- **Protocols** (scheduler, lease, lock file) are step systems: every `await` of the source is a step
  boundary, any step may fail, any process may crash, and a run is any sequence of events. Promises are
  about every run. The lease runs on the lock file's own operations (`ClaimFile`). `SchedulerService.QueueFiles`,
  `StdioWriters.Writers` and `HookQueue.HooksService` are the source's own methods as class methods; each
  keeps a ghost trace whose run in the step system is exactly the current state, so what holds of every run
  holds of every sequence of calls.
- **Objects the source updates in place** (watcher state, buckets, connection manager, Sieve reader,
  session table, the ancestor set of the audit walk) are classes with an invariant over
  their whole history.
- **Texts** (redaction, Sieve, IPv6) are sequences; the algorithms are loops proved against functions
  that say where every character of the result came from.

What the proofs found:

- README.md:640 of the repository promises that a scheduled email is not sent again once either its sent
  record or its move into `sent/` succeeded. That holds exactly when no read of the record fails while the
  file is there (`SchedulerTheorems.DeliveryFinality`): after a failed move, a stale check whose read under
  the claim fails has `writeSendFailure` turn the `sent` record into a `pending` one
  (`SchedulerTheorems.FailedRereadSendsAgain`).
- When the read *before* the claim fails, `writeSendFailure` runs without the claim and can overwrite
  anything: attempts are undone, a cancelled entry comes back. Submissions within attempts, one place per
  entry, and final cancels hold exactly when that read does not fail and live claims do not lapse. An
  `acquireClaim` that throws has the same way out of the claim; that it returns is assumed throughout.
- A live claim does lapse when three processes contend for a stale lock (`FileClaim.ExclusiveExactlyForTwo`):
  one that saw the old lock renames the new holder's fresh lock away, and a third creates one before it is
  put back. Two contenders are always exclusive. `SchedulerClaimTheorems.PromisedExactly` carries that over to
  the queue: its promises hold exactly for at most two contenders, or at most one when first reads can fail.
- So touching the lock in time is not enough for one writer per machine. `LeaseTheorems.OneWriterExactly`
  gives the exact condition, and a run for each way it fails: a late touch; three processes and a fresh
  lock renamed away; a lock renamed away and lost to an error; three processes and a release that stalls
  between its read and its unlink.
- Stopping hooks or scheduler does not wait for a flush or a queue check under way, so its work can overlap the
  next leader's even where writers never do (`LeaseWork.OneWorksExactly`). The queue check has its own claim; a flush has none.
- `closeAll` deletes a map entry by name after a logout; a client connected meanwhile is then lost open
  (`Connections.ConnectionManager.LogoutDone` gives the exact condition, `Connections.LogoutLosesAClient` the run).
- The mark the error-text cap appends is added after the last scan, and can complete a secret that ends in it
  (`CredentialRedaction.CapShowsNoSecretIff` gives the exact condition, `TheMarkCompletesASecret` a text).
- A stop of the hook service cannot recall a flush already chained; after a restart that flush takes the new
  mail early and a second timer gets armed (`HookQueue.TwoTimersAfterAStop`). That can follow exactly a stop that
  finds a flush queued (`HookQueue.StopLeavesOneTimerExactly`). No mail is lost or handled twice by it.
- A ManageSieve `BYE` is reported with the code `BY`.

## Model

| member | source | states |
|---|---|---|
| SchedulerSafety.ApplyKeepsInv | src/services/scheduler.service.ts:526-671 | one step of any task, crash or failure keeps: one claim holder at most, submissions within the attempts on disk within 3, the entry in exactly one place, `failed` only when attempts are used up |
| SchedulerSafety.RunKeepsInv | src/services/scheduler.service.ts:526-671 | the same for every run of any number of checks and cancels |
| SchedulerSafety.HolderStep | src/services/scheduler.service.ts:552-670 | each file operation of the claim's holder keeps the bounds and leaves its next step's assumptions about the file true |
| SchedulerSafety.OnlyDeferralLowersAttempts | src/services/scheduler.service.ts:593-598 | the only step that lowers the attempts on disk is a rate-limit deferral, and no more was submitted than the attempts it restores |
| SchedulerSafety.GoneStaysGone | src/services/scheduler.service.ts:558-560 | once the pending file is gone no later step submits, rewrites or cancels, stale reads included |
| SchedulerSafety.FinalStaysFinal | src/services/scheduler.service.ts:115-132 | an entry gone, sent or failed is never submitted again, and a recorded delivery stays recorded, in every run where reads hold |
| SchedulerTheorems.SubmissionsWithinAttempts | src/services/scheduler.service.ts:557-605 | in every run SMTP submissions stay within the attempts on disk and so within 3, if and only if first reads do not fail and live claims do not lapse |
| SchedulerTheorems.EntryInOnePlace | src/services/scheduler.service.ts:526-671 | every id is always in exactly one of pending file, sent/ and cancelled, under exactly that condition |
| SchedulerTheorems.DeliveryFinality | src/services/scheduler.service.ts:634-657 | once the sent record or the move succeeded nothing submits the id again, if and only if reads under the claim do not fail either |
| SchedulerTheorems.CancelFinality | src/services/scheduler.service.ts:417-461 | a cancel that succeeded is final for every later run, under exactly the claim condition |
| SchedulerTheorems.CancelsOnlyPending | src/services/scheduler.service.ts:432-450 | the step that cancels removes a record that is pending at that moment, under exactly the claim condition |
| SchedulerTheorems.FailedRereadSendsAgain | src/services/scheduler.service.ts:542-545 | the run in which a failed read under the claim makes a sent entry pending and it is sent twice |
| SchedulerTheorems.StaleFailureUndoesAnAttempt | src/services/scheduler.service.ts:659-670 | an unclaimed failure note takes back an attempt that was submitted |
| SchedulerTheorems.LapsedClaimSubmitsTwice | src/services/scheduler.service.ts:570-605 | two holders of one claim submit twice on one attempt |
| SchedulerTheorems.CancelUndone | src/services/scheduler.service.ts:659-670 | a write under way brings a cancelled entry back |
| SchedulerTheorems.StaleFailureCancelsFailed | src/services/scheduler.service.ts:417-461 | two stale failure notes let a cancel remove an entry marked failed |
| SchedulerTheorems.UnrecordedDeliveryIsSentAgain | src/services/scheduler.service.ts:634-653 | with neither record nor move, delivery is at least once in every world |
| SchedulerProgress.CheckEnds | src/services/scheduler.service.ts:557-605 | in any run, a task that holds the claim, gets its steps and whose own operations work ends its check, and what the record then is follows from SMTP's answer |
| SchedulerProgress.CheckOutcome | src/services/scheduler.service.ts:526-671 | what a claimed check of a due entry whose own operations work leaves in any run, whatever runs beside it, for each SMTP answer: moved to sent, restored as queued, or back with one attempt more; marked failed without asking when attempts are used up |
| SchedulerProgress.ChecksLeftNeverGrows | src/services/scheduler.service.ts:526-671 | no event of any task, crash or failure gives an entry back a check it has used |
| SchedulerProgress.CheckMakesProgress | src/services/scheduler.service.ts:558-605 | each claimed, non-deferred check of a due entry whose own operations work brings it strictly nearer to sent or failed, in any run under the claim contract |
| SchedulerProgress.ChecksSettle | src/services/scheduler.service.ts:468-499 | in any run at most 3 such checks of one entry, their own operations working, and after 3 it is sent, cancelled or failed |
| SchedulerDue.NeverEarly | src/services/scheduler.service.ts:115-132 | in every run of every world SMTP takes the message only if some check began at its send time or later |
| SchedulerService.OutcomesMean | src/services/scheduler.service.ts:526-671 | when a check reports delivered, deferred or skipped, exactly, by status, send time, attempts and which operations work, and what each outcome, failed included, tells about the files it leaves |
| SchedulerService.CheckInPlainTerms | src/services/scheduler.service.ts:526-671 | row by row, for every mix of failing operations: which file the entry is in after a check, its status, attempts, send time and draft, what is reported, and whether SMTP took the message |
| SchedulerService.QueueFiles.ProcessQueueFile | src/services/scheduler.service.ts:526-549 | the outcome, the submissions, the claim and both files as a function of the files before, the time and which operations work; before its send time an entry is skipped and left as it is |
| SchedulerService.QueueFiles.SendIfStillDue | src/services/scheduler.service.ts:558-568 | under the claim: sent, deferred, failed or skipped exactly by the re-read record, skipped before its send time, and both files for each |
| SchedulerService.QueueFiles.SendClaimedEmail | src/services/scheduler.service.ts:570-605 | attempt written before SMTP is asked; delivery is recorded exactly when the record or the move worked; a deferral restores the record |
| SchedulerService.QueueFiles.SettleOrSend | src/services/scheduler.service.ts:540-545 | a delivered record is only moved; every error under the claim ends in its failure note, and what that leaves |
| SchedulerService.QueueFiles.ClaimAndSend | src/services/scheduler.service.ts:538-548 | without the claim nothing is asked or written; with it the files are those of the claimed check, and the claim is released at the end |
| SchedulerService.QueueFiles.MoveToSent | src/services/scheduler.service.ts:655-657 | the rename moves the record as it stands, or changes nothing |
| SchedulerService.QueueFiles.RecordSent | src/services/scheduler.service.ts:640-653 | the move is tried even when the sent record could not be written, and what the files then hold |
| SchedulerService.QueueFiles.WriteSendFailure | src/services/scheduler.service.ts:659-670 | the record goes back to pending, or to failed when attempts are used up, and nothing else changes |
| SchedulerService.QueueFiles.CancelClaimed | src/services/scheduler.service.ts:432-450 | under the claim the record is read again, and removed only if still pending |
| SchedulerService.QueueFiles.Cancel | src/services/scheduler.service.ts:417-461 | removes the file exactly when both reads show it pending and every operation works |
| SchedulerService.QueueFiles.CallsKeepPromises | src/services/scheduler.service.ts:468-499 | after any sequence of these calls the bounds and the one place hold |
| FileClaim.StepKeepsBoth | src/utils/file-claim.ts:19-113 | for two contenders, every file operation keeps each holder's file the lock, or set aside by the other who will put it back or has died |
| FileClaim.ThreeCanBothHold | src/utils/file-claim.ts:44-72 | the nine operations after which two of three contenders hold the same lock |
| FileClaim.ExclusiveExactlyForTwo | src/utils/file-claim.ts:75-113 | claims are exclusive in every run if and only if at most two processes contend |
| ClaimFile.FinishedMeans | src/utils/file-claim.ts:44-88 | undisturbed from any of its operations on, an acquisition takes a free or a stale lock with its own token and leaves a fresh one with its holder, put back if it had been renamed away |
| SchedulerClaims.StepKeepsLinked | src/services/scheduler.service.ts:98-102 | on the lock file's own operations, each task's step and its claim's step stay together: it works under the claim exactly while its lock file operations gave it one |
| SchedulerClaims.RunIsSeen | src/services/scheduler.service.ts:526-671 | with two contenders every run on the lock file's operations is a run of the step system in which no live claim lapses |
| SchedulerClaimTheorems.PromisedExactly | src/services/scheduler.service.ts:526-671 | on the lock file's operations, submissions stay within the attempts and the entry in one place in every run, if and only if one task contends, or two and first reads do not fail |
| SchedulerClaimTheorems.FinalForTwo | src/services/scheduler.service.ts:634-657 | on the lock file's operations, with two contenders and reads that hold, recorded deliveries and cancels are final |
| SchedulerClaimTheorems.TwoHoldersSubmitTwice | src/services/scheduler.service.ts:570-605 | three checks at a dead lock: two hold it and submit twice on one attempt |
| SchedulerClaimTheorems.StaleFailureUndoesAnAttempt | src/services/scheduler.service.ts:659-670 | two tasks: an unclaimed failure note takes back a submitted attempt |
| LeaseSafety.EveryProcessKeepsInv | src/safety/writer-lease.ts:56-112 | in every run of every world each process keeps its writers within its lease and its shutdown order |
| LeaseSafety.ActKeepsMany | src/safety/writer-lease.ts:56-112 | one file operation of any process keeps: one process at most leads, stops or releases, the lock carries its token and is as recent as its touches, and no lease is found lost |
| LeaseSafety.LeadersKeepTheLock | src/safety/writer-lease.ts:69-77 | in every run with touches and releases in time and no fresh lock renamed away, the lock carries the leader's token and no leader ever finds its lease lost |
| LeaseSafety.PairMoves | src/safety/writer-lease.ts:56-112 | for two processes, the same with every interleaving of their file operations, a fresh lock renamed away included |
| LeaseTheorems.OneWriterExactly | src/safety/writer-lease.ts:40-112 | in every run at most one process has hooks, watcher or scheduler started and not yet stopped, if and only if there is one process, or touches are in time and, for two, a fresh lock renamed away is never lost, for more, none is renamed away and releases are in time too |
| LeaseWork.OneWorksExactly | src/safety/stdio-writers.ts:41-76 | the work of two processes never overlaps in any run, if and only if there is one process, or writers do not overlap and no work outlives its writer's stop |
| LeaseWork.WorkOutlivesRelease | src/services/hooks.service.ts:211-224 | a flush begun before the shutdown goes on beside the next leader's writers |
| LeaseTheorems.TakesFree | src/safety/writer-lease.ts:57-67 | a follower that finds the lock free leads, if nothing comes between its operations |
| LeaseTheorems.TakesStale | src/safety/writer-lease.ts:57-67 | so does one that finds it stale |
| LeaseTheorems.LateTouchOverlaps | src/safety/writer-lease.ts:69-75 | a leader whose touch grows stale runs writers beside a second one |
| LeaseTheorems.FreshLockIsParked | src/utils/file-claim.ts:44-72 | one that saw a dead lock late renames the new leader's lock away and a third leads too, every touch zero ms old |
| LeaseTheorems.ParkedLockIsLost | src/utils/file-claim.ts:57-71 | an error on the lock renamed away loses it, and two lead |
| LeaseTheorems.LateReleaseOverlaps | src/utils/file-claim.ts:100-113 | a release that stalls between its read and its unlink removes the next leader's lock, and a third leads too |
| LeaseSafety.NeverReacquiresBeforeStopping | src/safety/stdio-writers.ts:53-76 | in every run of every world no process asks for the lease with a writer on; shutdown stops scheduler, hooks and watcher in that order, and the release begins only after them |
| StdioWriters.ReplayKeepsInv | src/safety/writer-lease.ts:56-112 | every sequence of one process's moves keeps its writers within its lease and its shutdown order |
| StdioWriters.Writers.AcquireClaim | src/utils/file-claim.ts:75-88 | on an undisturbed lock: succeeds exactly over a free one, or a stale one when every operation works, and what the lock is otherwise |
| StdioWriters.Writers.TryToLead | src/safety/writer-lease.ts:57-67 | leads exactly when the claim is won and not halted; a claim won after the halt is given back when its read and unlink work |
| StdioWriters.Writers.RenewOrLose | src/safety/writer-lease.ts:69-75 | renews while the lock is its own, else stops scheduler, hooks and watcher |
| StdioWriters.Writers.RunTick | src/safety/writer-lease.ts:78-87 | one tick of a follower or a leader: token and lock after it for every mix of failing operations, and no writer runs without the token |
| StdioWriters.Writers.RunShutdown | src/safety/stdio-writers.ts:65-76 | all writers are off at the end and only its own lock is removed |
| StdioWriters.Writers.ShutdownDuringAttempt | src/safety/writer-lease.ts:61-64 | a halt during the attempt's mkdir: the attempt never leads, and the lock after it for every mix of failing operations, a claim won being unlinked when its read and unlink work |
| Spans.MergeSpans | src/connections/credential-redaction.ts:130-142 | the cuts are sorted, disjoint, not touching, and cover exactly what the spans cover |
| Spans.NormalFormUnique | src/services/oauth.service.ts:130-143 | such cuts are determined by what they cover, so the order echoes were found in cannot matter |
| Splicing.FilteredView | src/services/oauth.service.ts:174-178 | the filtered view holds exactly the kept characters, in order, at the offsets mapped back to |
| Splicing.SpliceTraced | src/services/oauth.service.ts:145-157 | every character of the result is a kept character outside the cuts at its own place, or a marker's |
| Splicing.StandsExactlyUncut | src/services/oauth.service.ts:145-157 | of the text the result holds exactly the kept characters outside the cuts, in the text's order |
| Splicing.MarkersPlaced | src/services/oauth.service.ts:145-157 | an offset is recorded exactly when an inserted marker begins there |
| Splicing.InsertedReadsAsMarker | src/services/oauth.service.ts:145-157 | every inserted marker reads `[redacted]` in the result |
| Splicing.EchoReachesAMarker | src/services/oauth.service.ts:163-188 | when the filtered echoes are cut, no stretch of kept text alone spells a secret |
| Redaction.EchoesOf | src/services/oauth.service.ts:120-124 | every place a secret occurs, overlapping ones included, and no other |
| Redaction.SpelledOnlyInsideMarkers | src/services/oauth.service.ts:185-186 | true exactly when every occurrence of every secret lies inside one marker |
| Redaction.TextAroundCuts | src/services/oauth.service.ts:145-157 | the loop builds the spliced text and its marker offsets |
| Redaction.PartShowsNoSecret | src/services/oauth.service.ts:163-188 | in any part of a text that passed, every occurrence of a secret lies inside one inserted marker and holds no character of the text |
| Redaction.WithheldOnlyAcrossMarkers | src/services/oauth.service.ts:167-186 | a cut text fails the re-scan exactly when a secret is spelled across a marker |
| Redaction.HeldMeans | src/services/oauth.service.ts:167-179 | a text holds a short shape exactly when one occurs somewhere in it |
| OAuthRedaction.MapBack | src/services/oauth.service.ts:182 | echoes of the filtered view cover, in raw offsets, from their first to their last character |
| OAuthRedaction.SecretEchoes | src/services/oauth.service.ts:180-183 | the echoes of one secret in both views, in raw offsets |
| OAuthRedaction.EchoesAreCut | src/services/oauth.service.ts:163-184 | every echo of a long secret in the filtered view begins inside a cut |
| OAuthRedaction.FindCuts | src/services/oauth.service.ts:180-184 | the cuts cover exactly the union of the echoes of both views |
| OAuthRedaction.CleanErrorField | src/services/oauth.service.ts:172-188 | the field shown, or nothing, as the cuts, the short shapes and the re-scan decide |
| OAuthRedaction.FieldShowsNoSecret | src/services/oauth.service.ts:163-188 | for every text and every set of secrets, the field is a stretch of the spliced text in which every occurrence of a secret lies inside one inserted marker |
| OAuthRedaction.FieldIsTheTrimmedStart | src/services/oauth.service.ts:172-188 | a field is withheld exactly for a short shape in either view or a secret not inside one marker, and is otherwise the spliced text up to the limit without the blanks at its ends |
| OAuthRedaction.CleanValueComesBack | src/services/oauth.service.ts:172-188 | a value of the charset within the limit, with no echo and no blank at its ends, comes back as it is |
| OAuthRedaction.CharsetIsPrintable | src/services/oauth.service.ts:174-178 | the charset is printable ASCII without the quote and the backslash |
| OAuthRedaction.CutsAreOccurrences | src/services/oauth.service.ts:180-184 | exactly what is cut: each occurrence of a secret in the raw text, and the raw stretch of each in the filtered view |
| OAuthRedaction.OnlyEchoesAreCut | src/services/oauth.service.ts:172-188 | the spliced text the field is a stretch of holds exactly the characters of the charset outside every echo, in order |
| OAuthRedaction.DroppedOnlyAcrossMarkers | src/services/oauth.service.ts:167-187 | without short shapes a field is dropped exactly when a secret is spelled across a marker |
| OAuthRedaction.CleanTextIsKept | src/services/oauth.service.ts:172-188 | a refusal that echoes nothing is repeated whole, charset and length aside |
| OAuthRedaction.PiecesOf | src/services/oauth.service.ts:222-227 | all windows of a secret of 8 characters, or the whole of a shorter one |
| OAuthRedaction.HoldsPieceOf | src/services/oauth.service.ts:237-241 | true exactly when the text spells some stretch of a secret at least that long |
| CredentialRedaction.FindCuts | src/connections/credential-redaction.ts:161-165 | the cuts cover exactly the echoes, the bearer tokens and the XOAUTH2 blobs |
| CredentialRedaction.RedactSentCredentials | src/connections/credential-redaction.ts:158-179 | withheld, or the spliced text, then capped |
| CredentialRedaction.TextShowsNoSecret | src/connections/credential-redaction.ts:153-178 | before the cap the text is withheld, or every occurrence of a secret in it lies inside one inserted marker |
| CredentialRedaction.CutsAreOccurrences | src/connections/credential-redaction.ts:161-165 | exactly what is cut: each occurrence of a secret and each blob |
| CredentialRedaction.OnlyEchoesAndBlobsAreCut | src/connections/credential-redaction.ts:158-179 | the spliced text holds exactly the characters outside every echo and every blob, in order |
| CredentialRedaction.WithheldExactlyWhenSpelledAcross | src/connections/credential-redaction.ts:153-178 | a text without short shapes is withheld exactly when a secret is spelled across a marker |
| CredentialRedaction.CleanTextIsKept | src/connections/credential-redaction.ts:158-179 | a text without secrets and blobs is repeated unchanged before the cap |
| CredentialRedaction.CleanTextIsShown | src/connections/credential-redaction.ts:158-179 | a text of at most 300 characters with no secret and no blob is shown as it is |
| CredentialRedaction.CapKeeps | src/connections/credential-redaction.ts:144-147 | a text of at most 300 characters is shown whole, of a longer one the first 299 and the mark |
| CredentialRedaction.CapShowsNoSecretIff | src/connections/credential-redaction.ts:144-147 | the capped text shows no secret if and only if, for none, the text before the cap is over 300 and its 299 kept characters end in all of that secret but a final mark |
| CredentialRedaction.CapIsSafeForSecretsWithoutTheMark | src/connections/credential-redaction.ts:144-147 | so a set of secrets none of which ends in the mark is safe from the cap |
| CredentialRedaction.TheMarkCompletesASecret | src/connections/credential-redaction.ts:144-147 | a secret that ends in the mark can be completed by it |
| ThreadSearch.SearchThreadHeaders | src/services/imap.service.ts:346-357 | every message any of the three header searches finds, a refused search aside |
| ThreadSearch.SearchPending | src/services/imap.service.ts:381-385 | every pending id is searched, unless enough messages are known |
| ThreadSearch.CollectThreadIds | src/services/imap.service.ts:360-367 | every id the messages name is known afterwards, and nothing out of reach |
| ThreadSearch.FindThreadUids | src/services/imap.service.ts:374-393 | at most max messages, each once and reached from the start, fewer only when nothing is left to follow; it ends whatever the server answers |
| ThreadSearch.AnswerFollowsTheHeaders | src/services/imap.service.ts:346-393 | a short answer holds every message that the start id or an id named by one of its messages finds in Message-ID, References or In-Reply-To, and every set that does so holds the answer |
| ThreadSearch.AnswerIsTheThreadOrMaxOfIt | src/services/imap.service.ts:369-393 | against the least closed set: the whole thread if it is shorter than max, else max of its messages |
| ThreadSearch.ShortAnswerIsTheThread | src/services/imap.service.ts:369-393 | an answer shorter than max is the least closed set |
| Watcher.RangeAloneMatchesTheNewest | src/services/watcher.service.ts:319-331 | `N:*` answers with an old message exactly when no UID reaches N and the mailbox is not empty |
| Watcher.AnswerHoldsNewMail | src/services/watcher.service.ts:324-335 | the loop's filter leaves exactly the present messages above the last seen UID, each once |
| Watcher.AboveInOrder | src/services/watcher.service.ts:324-335 | the new messages stand in the order of the answer |
| Watcher.IdleState.MailboxMoves | src/services/watcher.service.ts:310-336 | arrivals, expunges and renumbering between sessions keep the invariant, a fetch under way included |
| Watcher.IdleState.Select | src/services/watcher.service.ts:250-267 | a reconnect resumes after the last UID told unless renumbered, and misses nothing when it is not behind |
| Watcher.IdleState.Disconnect | src/services/watcher.service.ts:193-197 | a closed connection changes neither the last seen UID nor what was told |
| Watcher.IdleState.StartFetch | src/services/watcher.service.ts:316-321 | the fetch asks from the last seen UID at the time it holds the lock |
| Watcher.IdleState.ReadRow | src/services/watcher.service.ts:324-335 | one row, in any order, collected and counted only when new |
| Watcher.IdleState.FinishFetch | src/services/watcher.service.ts:337-346 | no UID told twice; every message there when the server answered is told; the last seen UID never decreases |
| Watcher.IdleState.FailFetch | src/services/watcher.service.ts:354-359 | a failed fetch tells nothing and skips nothing |
| Watcher.IdleState.HandleNewEmails | src/services/watcher.service.ts:310-360 | a fetch emits exactly the new mail in one event, none if there is none, and its newest becomes the last seen UID; on failure, after any row, it changes nothing |
| Watcher.IdleState.EventsTellOnce | src/services/watcher.service.ts:337-346 | the batches emitted since the last renumbering hold each UID once, none up to the last seen one missing |
| RateLimiter.RateLimiter.TryConsume | src/safety/rate-limiter.ts:29-38 | the account's bucket and answer are those of the specification; no other bucket changes |
| RateLimiter.RateLimiter.Remaining | src/safety/rate-limiter.ts:43-46 | asking about an unknown account leaves no bucket |
| RateLimiter.AllowedExactly | src/safety/rate-limiter.ts:29-67 | with a forward clock a send is let through if and only if, counted back to any call, fewer were sent than a full bucket and the tokens of the time since |
| RateLimiter.AllowedAfterAWait | src/safety/rate-limiter.ts:53-67 | so a send is let through once 60000 / max ms have passed since the last call, whatever came before |
| RateLimiter.RemainingAreSends | src/safety/rate-limiter.ts:43-46 | the tokens told are the sends that would be let through at that moment |
| RateLimiter.EarnedMeans | src/safety/rate-limiter.ts:55 | a time earns its whole number of 60000 / max ms |
| RateLimiter.EveryTokenIsPaid | src/safety/rate-limiter.ts:53-67 | whatever the clock does, successes and tokens left never exceed the start and what the clock paid for |
| RateLimiter.SendsAreBounded | src/safety/rate-limiter.ts:29-67 | any calls, any clock: at most max plus the tokens of the time to the latest reading |
| RateLimiter.SendsInAnyStretch | src/safety/rate-limiter.ts:29-67 | with a forward clock the same bound from any call on, whatever came before |
| RateLimiter.TwiceTheRateHappens | src/safety/rate-limiter.ts:29-67 | the bound is reached: twice the rate inside one window |
| RateLimiter.RefillTwice | src/safety/rate-limiter.ts:53-67 | refilling at t1 and then at t2 is refilling at t2, carry and saturation included |
| RateLimiter.AskingChangesNothing | src/safety/rate-limiter.ts:43-67 | with a forward clock, remaining calls never change what a later send is told |
| Backoff.JitterKeepsThreeQuarters | src/connections/backoff.ts:15-17 | a jittered delay is more than three quarters of the full one and no longer |
| Backoff.ConnectBackoff.AssertReady | src/connections/backoff.ts:32-40 | refuses exactly until the last failure's window has passed |
| Backoff.ConnectBackoff.RecordFailure | src/connections/backoff.ts:42-47 | the first delay or the next one, for this key only |
| Backoff.ConnectBackoff.RecordSuccess | src/connections/backoff.ts:49-51 | a success forgets this key's failures and no other's |
| Backoff.DelayAfter | src/connections/backoff.ts:11-47 | after the k-th failure in a row the next connect waits more than 3/4 of min(1000 * 2^(k-1), 60000) ms |
| Backoff.ReadyInTime | src/connections/backoff.ts:11-47 | after the k-th failure in a row the next connect is let through once min(1000 * 2^(k-1), 60000) ms have passed |
| Backoff.JitterTakesAQuarter | src/connections/backoff.ts:15-17 | the jitter takes off a quarter of the drawn share, in whole ms |
| Backoff.FailuresTakeTheirTime | src/connections/backoff.ts:11-47 | n failures in a row take longer than 3/4 of all their delays together |
| Connections.ConnectionManager.JoinOrStart | src/connections/manager.ts:229-236 | a second caller joins; a new connect starts only with none in flight and no client in the map |
| Connections.ConnectionManager.GetImapClient | src/connections/manager.ts:211-237 | a usable client is reused; a stale one is closed first, and then the caller joins or starts the one connect |
| Connections.ConnectionManager.GetSmtpTransport | src/connections/manager.ts:290-321 | without verification the map's transport is reused; else the caller joins or starts the one connect |
| Connections.ConnectionManager.VerifyFailed | src/connections/manager.ts:295-321 | a transport that failed verification is closed; a replacement made meanwhile is kept |
| Connections.ConnectionManager.Authenticated | src/connections/manager.ts:244-251 | the client comes into being only now; failed credentials count as a failed connect |
| Connections.ConnectionManager.Connected | src/connections/manager.ts:256-269 | a login clears the failures in a row, a refusal adds one and closes the client |
| Connections.ConnectionManager.Failed | src/connections/manager.ts:257-268 | a failed connect adds one failure in a row, settles, and closes its client if it has one |
| Connections.ConnectionManager.Logged | src/connections/manager.ts:270-277 | the new client goes into the map over nothing, so none is lost open |
| Connections.ConnectionManager.Finally | src/connections/manager.ts:232-234 | only a settled connect leaves the in-flight map |
| Connections.ConnectionManager.ClientGone | src/connections/manager.ts:89-108 | a connection that ends leaves the map only if it is the current one |
| Connections.ConnectionManager.LogoutDone | src/connections/manager.ts:364-373 | closeAll's delete by name loses an open client exactly when another one is in the map by then |
| Connections.ConnectionManager.CloseAll | src/connections/manager.ts:358-381 | with no connect in flight and no call in between, nothing is left open |
| Connections.LogoutLosesAClient | src/connections/manager.ts:364-373 | the run after which a client is open and in no map |
| Connections.ConnectOnce | src/connections/manager.ts:229-277 | an undisturbed connect puts its one client into the map |
| Connections.ConnectionManager.ConnectsWait | src/connections/manager.ts:239-277 | in any interleaving one connect at a time, and it waited for the failures in a row before it |
| Sieve.SieveConn.ReadLine | src/services/sieve.service.ts:150-164 | the first line of the whole stream and the unread rest, however it is cut; else closed or over budget |
| Sieve.SieveConn.ReadBytes | src/services/sieve.service.ts:166-179 | the next n octets of the whole stream and the unread rest |
| Sieve.SieveConn.ReadResponse | src/services/sieve.service.ts:181-226 | same response, error and unread suffix as parsing the whole stream at once; over budget only when it is longer than the limit, and no response is read past it |
| Sieve.ReadsWhatWasWritten | src/services/sieve.service.ts:196-222 | lines and literals of any octets, whatever they contain, are read as they were written, up to the status |
| Sieve.AnyCaseEndsTheResponse | src/services/sieve.service.ts:199-201 | OK, NO or BYE in any case, alone or before a space and any text, ends the response |
| Sieve.TooLongIsRefused | src/services/sieve.service.ts:206-213 | a literal announced longer than 1048576 octets is refused |
| Sieve.CodeIsTheWordUnlessBye | src/services/sieve.service.ts:196-222 | for every response, the code is the status word the server sent if and only if that word is not BYE; a BYE is reported as BY |
| SieveText.SplitLineExtends | src/services/sieve.service.ts:153-159 | a line once there stays the first line whatever arrives later |
| SieveText.HeaderReads | src/services/sieve.service.ts:203-206 | a literal header reads back its length, for every length |
| SieveText.LiteralExactly | src/services/sieve.service.ts:203-206 | a line is a literal header of length n exactly when it is a brace, digits worth n, maybe a plus, a brace and white space |
| SieveText.StatusExactly | src/services/sieve.service.ts:199-201 | a line is a status line exactly when its first word is OK, NO or BYE in any case |
| Sequences.SpacesAre | src/services/sieve.service.ts:199-204 | white space is the blank and the control characters from tab to carriage return |
| Digits.ValueOfDigit | src/safety/validation.ts:139-170 | what a single decimal or hexadecimal digit is worth |
| Digits.ValueOfBoth | src/services/sieve.service.ts:207 | digits weigh by their place |
| SieveText.ListedNameIsTheName | src/services/sieve.service.ts:42-67 | listing undoes quoting, for every name and either active mark |
| Audit.RedactValue | src/safety/audit.ts:77-99 | the walk with the shared set equals the walk by paths, and restores the set |
| Audit.RedactItems | src/safety/audit.ts:102-112 | the same for an array, slot by slot |
| Audit.RedactEntries | src/safety/audit.ts:125-147 | the walk of an object with the shared set equals the walk by paths, and restores the set |
| Audit.RedactParams | src/safety/audit.ts:149-152 | the whole entry, starting with only the root in the set |
| Audit.SensitiveValuesDoNotShow | src/safety/audit.ts:124-147 | two graphs that differ only under sensitive keys, and in what only those reach, give the same entry |
| Audit.WrittenAtItsPlace | src/safety/audit.ts:77-147 | every value found is written for itself at its own place, and nothing else but masks is |
| Audit.EveryPlaceIsWritten | src/safety/audit.ts:77-152 | the root and every container found are written slot by slot, an object under its own keys, with `[REDACTED]` exactly under sensitive keys and `[Accessor]` exactly at accessors; a leaf as its text, a reference to a container above or deeper than 16 as its mark |
| Audit.MarksStandExactly | src/safety/audit.ts:89-90 | `[Circular]` exactly at references to a container above, `[Truncated]` exactly at the others too deep |
| Audit.NestsNoDeeper | src/safety/audit.ts:89-98 | no container of the entry is more than 16 levels below the root |
| HttpSessions.ExpiryClosesTheExpired | src/safety/http-sessions.ts:73-77 | exactly the idle sessions past the limit expire |
| HttpSessions.CapClosesOnlyIdle | src/safety/http-sessions.ts:79-85 | only idle, unkept sessions go, none without need, until the cap or the last idle one |
| HttpSessions.CapClosesTheOldest | src/safety/http-sessions.ts:80-82 | least recently used first, and none more recent than an idle one left |
| HttpSessions.EvictionInPlainTerms | src/safety/http-sessions.ts:71-86 | after an eviction every session there is in use or was used within the limit; who left was idle, and had expired or made room as one of the least recently used |
| HttpSessions.HttpSessionStore.FindOldestIdle | src/safety/http-sessions.ts:80-84 | the first of the least recently used idle sessions |
| HttpSessions.HttpSessionStore.CloseExpired | src/safety/http-sessions.ts:73-77 | the table and the closed transports after the sweep |
| HttpSessions.HttpSessionStore.Evict | src/safety/http-sessions.ts:71-86 | expiry, then the cap; afterwards at most max sessions or no idle one besides the kept; it ends |
| HttpSessions.HttpSessionStore.Set | src/safety/http-sessions.ts:39-48 | the new session stays, and the table is within its cap or holds no other idle session |
| HttpSessions.HttpSessionStore.CloseAndDelete | src/safety/http-sessions.ts:88-98 | only an idle session is closed, and no transport twice |
| HttpSessions.HttpSessionStore.Delete | src/safety/http-sessions.ts:63-65 | takes the session out without closing it |
| HttpSessions.HttpSessionStore.BeginRequest | src/safety/http-sessions.ts:50-55 | one more request in flight and a new time, for that session only |
| HttpSessions.HttpSessionStore.EndRequest | src/safety/http-sessions.ts:57-61 | one fewer, never below none |
| HookQueue.EveryEmailOnce | src/services/hooks.service.ts:211-263 | in every run, stops and restarts included, the emails not skipped stand in arrival order, once each, in the batches, what stops threw away, and the queue |
| HookQueue.FlushesNeverOverlap | src/services/hooks.service.ts:249-256 | in every run at most one flush handles mail at a time, after all chained before it have settled or thrown |
| HookQueue.BatchesTakeTurns | src/services/hooks.service.ts:249-263 | in every run, between any two flushes that take a batch stands the end of the first |
| HookQueue.NoneIsStranded | src/services/hooks.service.ts:249-263 | in every run no mail waits once no timer is armed and no flush is queued |
| HookQueue.StopLeavesOneTimerExactly | src/services/hooks.service.ts:211-263 | after any run whose stops found no flush queued there is at most one timer armed or flush queued; one more stop keeps that, in every such continuation, if and only if it finds no flush queued either |
| HookQueue.StaysOneExactly | src/services/hooks.service.ts:211-263 | in any state of any run, later runs whose stops find no flush queued have at most one timer or flush to come if and only if the named timer is the only one to come now |
| HookQueue.RunKeepsOneNamed | src/services/hooks.service.ts:211-263 | every event keeps that, stops included that find no flush queued |
| HookQueue.OnlyStopsDrop | src/services/hooks.service.ts:211-224 | without a stop no mail is thrown away |
| HookQueue.TwoTimersAfterAStop | src/services/hooks.service.ts:211-263 | a flush queued before a stop unnames the timer set after the restart, and a second one is armed |
| HookQueue.AfterKeepsInv | src/services/hooks.service.ts:211-263 | each event keeps: at most 500 queued, none lost, a timer or flush to come for a queue that is not empty, flushes in order |
| HookQueue.QueueArrivals | src/services/hooks.service.ts:231-246 | accepting what there is room for keeps batches plus queue equal to the arrivals not skipped |
| HookQueue.HooksService.OnNewEmail | src/services/hooks.service.ts:230-257 | the first of the emails join the queue up to 500, the rest are skipped; a timer is named afterwards, the old one if there was one |
| HookQueue.HooksService.TimerFires | src/services/hooks.service.ts:249-256 | one flush is chained, in the state of a run |
| HookQueue.HooksService.FlushBatch | src/services/hooks.service.ts:259-263 | the batch is the whole queue, and with one the flush is under way until it settles |
| HookQueue.HooksService.FlushSettles | src/services/hooks.service.ts:250-255 | a flush that is done or threw lets the next begin, in the state of a run |
| HookQueue.HooksService.StartListening | src/services/hooks.service.ts:169-186 | arrivals are heard from here on, in the state of a run |
| HookQueue.HooksService.StopListening | src/services/hooks.service.ts:211-224 | the queue is thrown away and the named timer cleared, in the state of a run |
| Ipv6.ParsingUndoesPrinting | src/safety/validation.ts:139-170 | every legal form, leading zeros, `::` and dotted tail included, parses to its words |
| Ipv6.AcceptedIsPrinted | src/safety/validation.ts:139-170 | every accepted text is the print of a legal form with those words |
| Ipv6.AcceptsExactlyTheForms | src/safety/validation.ts:139-170 | both together: accepted as these words if and only if some legal form prints so |
| Ipv6.EightWords | src/safety/validation.ts:163-169 | an accepted text gives eight groups below 65536 |
| Ipv6.EmbeddedExactlyWhenCarried | src/safety/validation.ts:172-210 | an IPv4 address is found exactly when the words carry it under one of the four prefixes |
| Ipv6.MappedAddressComesBack | src/safety/validation.ts:172-199 | an IPv4 address written after `::ffff:` comes back as written |

## Left out

- SMTP, IMAP and TLS connections, the clock, random numbers and the file system itself are parameters or nondeterministic outcomes.
- One schedule id at a time: different ids share no file, the loop over the queue directory is a sequence of single checks, and the in-process timer is one more source of checks.
- A queue file that holds another id or is not JSON is not a record of its own: the first read of such a file is a failing read.
- In `SchedulerProtocol` the claim is the contract of its lock file; `SchedulerClaims` runs the same tasks on the lock file's own operations. That `acquireClaim` returns, with a token or without, is part of that contract: when it throws, `processQueueFile` reaches `writeSendFailure` without the claim, as after a failed first read.
- In `FileClaim` and `SchedulerClaims` a live process's file is never judged stale, errors other than "exists" and "not there" do not occur, and the leftover parked file of a crash is ignored.
- The lease: one clock for all processes; a step begins on a timer tick only, so a tick called after the halt is not modelled, nor are stop handlers that throw; that touches are in time is asked of every process that leads or has a writer on; a touch sets the time read just before it.
- In `StdioWriters` no other process acts meanwhile and one clock reading serves a call; interleavings are in `LeaseProtocol`.
- Reading a schedule, its validation, and the draft kept beside it beyond its best-effort deletion.
- Secret shapes are the set of texts they match; base64, percent encodings and JSON are not modelled, nor is matching by code points instead of UTF-16 units.
- Where bearer tokens and XOAUTH2 blobs stand is a parameter of the credential redaction.
- Percent decoding and lower-casing before the piece check: `OAuthRedaction.HoldsPieceOf` takes the texts as they come out of it.
- Threads: the answers of one search do not change while it runs.
- The watcher assumes that a closed connection fails its fetch, that a session's mailbox is not renumbered, and that UIDVALIDITY grows (section 2.3.1.1 of RFC 3501).
- RateLimiter: times are real numbers; rounding of doubles is not modelled.
- Connections: the maps for one account and protocol; other accounts are independent copies.
- Sieve: one character is one octet, white space is ASCII, a response timeout is a closed connection, and a chunk that arrives while no reader waits is not modelled.
- Audit: a proxy in place of the params, which is written as `[Proxy]`; dates, URLs, bytes, functions and other objects are leaves with the text written for them; symbol keys are not keys; a marker is told apart from a string that spells it.
- HttpSessions: an error thrown by a transport's close is swallowed by the source and left out.
- HookQueue: the rules, triage and actions applied to a batch; a service configured for no mail, which does not listen; the sampling counter.
- Message bodies, MIME, templates, calendars, notifications, configuration, the command line and tool registration: text handling and plumbing around what is modelled.
