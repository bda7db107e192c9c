# MaddyWeb: a verified model of its protocols and state machines

MaddyWeb is a web front end for the Maddy mail server. An unprivileged gateway talks to a
root-side helper, which drives Maddy's command line, keeps an authentication store, submits
mail over SMTP, deploys certificates, publishes mail-filing rules and edits Maddy's
configuration. This project models the parts of it that are protocols or state machines and
proves what they promise, over every input, every interleaving and every placement of faults.

| component | modules |
|---|---|
| gateway caches | `AccountCache`, `AccountReader`, `MessageCache`, `MessageLifetime` |
| message windows and pages | `MessageWindow`, `MessagePages` |
| the rule run over existing mail | `MailboxContents`, `RuleRun`, `RuleStep`, `UidSelection` |
| deleting a mailbox, creating an account | `MailboxDeletion`, `AccountCreation` |
| authentication store | `Eviction`, `AuthTables`, `AuthInvariant`, `AuthMeaning`, `AuthHistory`, `AuthOrigin`, `AuthStore` |
| login rate limits | `RateLimiter`, `RateBound` |
| SMTP submission | `SmtpData`, `SmtpSubmission` |
| certificate deployment | `Certificates`, `DockerCertificates`, `DockerReload` |
| mail rules | `MailRules`, `RuleOrder`, `FilterEvaluation`, `RulePublication` |
| configuration scanner and searches | `ConfigScan`, `ConfigMeaning`, `TextSearch` |
| delivery filter editor | `ImapFilterConfig`, `ImapFilterScript`, `ImapFilterMeaning` |
| submission listener editor | `SubmissionConfig`, `SubmissionRules`, `SubmissionScript`, `RenderedConfig`, `SampleConfig`, `SubmissionRefusal` |
| shared | `Options` |

How the models are built:

- Code that updates fields or tables is a class or a method that updates them too. Its
  `ensures` ties the new state to a function of the old one, and the lemmas about whole
  histories are about that function.
- The gateway runs on an event loop, so each stretch of code between two suspension points is
  one step. A history is any sequence of such steps by readers, writers, cancelled callers and
  a helper that serves requests in the order in which they reached it.
- A transaction of the store is one step that is undone when it raises an error.
- A command to Maddy, to a container or to the file system that reports failure may have
  taken effect, fully, partly or not at all, and one that the code verifies by a listing may
  wrongly report success. A read that answers is truthful. Failures are counted, so that a
  contract can say what happens if none, one or more of them occur.
- What a function specifies is described once more without it, row by row or by a condition on
  the input: `AuthMeaning` for the store's transactions, `MailRules.Effect` for rule operations,
  `ConfigMeaning` for the scanner, `Decided` for an SMTP conversation, `Refused` for a deletion.

Some promises of the code turn out to hold only under a condition, which a lemma or a contract
states:

- Removing the managed IMAP filter gives the configuration back if and only if the line before
  the storage block's closing line is not blank (`ImapFilterScript.ScriptRoundTrip`); otherwise
  exactly that blank line is lost, as in `ImapFilterScript.ScriptLosesBlank`.
- Removing the managed submission listener gives the configuration back if and only if the
  last line of the default block stands at depth 1, and is refused otherwise
  (`SubmissionScript.ScriptRoundTrip`). The edited configuration is balanced under the same
  condition (`SubmissionScript.EditedIsBalanced`). A default block whose last brace shares its
  line with that of a block inside it violates it: the script adds the listener, leaves the
  configuration unbalanced and then refuses to remove the listener
  (`SubmissionRefusal.AddedButNotRemoved`).
- The limit that the listener adds stands in the `limits` block if and only if that block ends
  with a lone brace (`SubmissionScript.LimitIsInside`); otherwise it goes into a later block,
  as in `SubmissionRefusal.LimitMisplaced`.
- Following `next_offset` delivers the whole mailbox if and only if every message has room for
  itself in a frame of 48 KiB (`MessagePages.HelperCompleteExactly`). Texts are cut to 512
  characters but the list of flags is not, so one message with long flags stops every walk at
  itself (`MessagePages.FlagsStopPaging`, `MessagePages.LongFlagIsOversized`).
- A rule operation that fails has left the stored rules unchanged, except if it failed while
  reading them back after the change; then delivery stays paused, or a reordering was complete
  but for its answer (`RulePublication.Dispatcher.Perform`).
- Delivery that was paused for a rule change is resumed if the transaction of a creation fails,
  but stays paused if that of a change, deletion or reordering does
  (`RulePublication.Dispatcher.Perform`).
- A page from the cache was taken by a reader less than five seconds before, but how long its
  answer was under way has no bound (`MessageLifetime.ReturnedPageIsRecent`,
  `MessageLifetime.LateAnswer`).
- Replacing all snapshots leaves no older rules active from the moment all old snapshots are
  removed, whatever fails then; a failure before that leaves some of them in force
  (`RulePublication.Dispatcher.Reconcile`).

## Model

| member | source | states |
|---|---|---|
| `AccountCache.ReturnedListIsCurrent` | src/maddyweb/gateway.py:674-833 | In every interleaving of reads, shared flights, writes, cancelled callers and broken connections, a list that `list_accounts` returns is the helper's table at that moment, for the caller's own authorization key |
| `AccountCache.AccountingIsExact` | src/maddyweb/gateway.py:674-833 | In every reachable state a quarantined cache is empty, the in-flight counter is the number of unfinished writer tasks, "task tracking was lost" has not occurred, and the generation never decreases |
| `AccountCache.StepInv` | src/maddyweb/gateway.py:674-833 | Every step of a reader, a writer, the helper or the event loop keeps the invariant that ties cache, flight, counters and pending requests to the helper's log |
| `AccountCache.BehaviourInv` | src/maddyweb/gateway.py:674-833 | The invariant holds in every state of every history |
| `AccountCache.HelperGateway.InvalidateAccounts` | src/maddyweb/gateway.py:781-788 | The fields after an invalidation are those of the step that the history lemmas are about |
| `AccountCache.HelperGateway.BeginMutation` | src/maddyweb/gateway.py:817-833 | A write invalidates, is counted and is tracked before anything is sent |
| `AccountCache.HelperGateway.SettleMutation` | src/maddyweb/gateway.py:793-815 | A write that settles is discounted and invalidates again; an ambiguous one quarantines the cache |
| `AccountCache.HelperGateway.SettleRead` | src/maddyweb/gateway.py:674-707 | A read is stored only if no write began or settled since it was started, and clears only its own flight |
| `AccountCache.HelperGateway.ListAccountsTurn` | src/maddyweb/gateway.py:722-765 | One turn of the reader's loop: wait for writers, use the cache, join the flight or start one, with tracked tasks that are done dropped |
| `AccountCache.HelperGateway.ListAccountsResume` | src/maddyweb/gateway.py:765-779 | A joined read is returned only if its generation is still current and no write is under way |
| `AccountReader.TurnExactly` | src/maddyweb/gateway.py:722-765 | In every history a reader's turn waits for all writers exactly while there are any, otherwise returns exactly what is cached for its key and has not expired, and otherwise joins the read under way for its key or starts exactly one |
| `AccountReader.ResumeExactly` | src/maddyweb/gateway.py:765-779 | A reader raises exactly if the read it joined has failed, returns its list exactly if nobody has written since it was started, and otherwise starts anew |
| `AccountReader.RaisedOnlyIfFailed` | src/maddyweb/gateway.py:674-707 | A reader raises only if the helper has refused that read or its connection broke |
| `AccountReader.AgainOnlyIfWritten` | src/maddyweb/gateway.py:765-779 | A reader reads again only if a write began or ended since it joined its read |
| `AccountReader.CachedListIsRecent` | src/maddyweb/gateway.py:690-765 | A list from the cache was read less than two seconds before |
| `MessageCache.ReturnedPageIsCurrent` | src/maddyweb/gateway.py:841-943 | In every interleaving a page that `list_messages` returns is the mailbox's page at that moment, unless somebody other than the tracked deletes has changed the mailbox since the page was read |
| `MessageCache.AccountingIsExact` | src/maddyweb/gateway.py:841-943 | In every reachable state no quarantined scope has a cached page, the cache has at most 128 entries, each scope's counter is the number of its unfinished deletes, and tracking was never lost |
| `MessageCache.GenerationsNeverFall` | src/maddyweb/gateway.py:841-870 | Over every history no generation of an account or a mailbox ever decreases |
| `MessageCache.StepInv` | src/maddyweb/gateway.py:841-943 | Every step, the invalidations that moves and flag changes issue among them, keeps the invariant over cache, quarantine, counters and pending requests |
| `MessageCache.BehaviourInv` | src/maddyweb/gateway.py:841-943 | The invariant holds in every state of every history |
| `MessageCache.MessageGateway.InvalidateMessageLists` | src/maddyweb/gateway.py:841-858 | A mailbox's generation grows and exactly its cached pages go |
| `MessageCache.MessageGateway.InvalidateAccountLists` | src/maddyweb/gateway.py:841-858 | An account's generation grows and exactly its cached pages go |
| `MessageCache.MessageGateway.BeginMessageMutation` | src/maddyweb/gateway.py:905-923 | A delete invalidates its scope, is counted and is tracked before anything is sent |
| `MessageCache.MessageGateway.SettleMessageMutation` | src/maddyweb/gateway.py:878-903 | A delete that settles is discounted and invalidates its scope again; an ambiguous one quarantines the scope |
| `MessageCache.MessageGateway.PruneMessageListCache` | src/maddyweb/gateway.py:938-943 | Expired pages go, and then the oldest ones until there is room |
| `MessageCache.MessageGateway.ListMessagesTurn` | src/maddyweb/gateway.py:1276-1329 | One turn of the reader's loop: wait for deletes of the scope, use the cache unless quarantined or expired, or read under the current generation |
| `MessageCache.MessageGateway.ListMessagesResume` | src/maddyweb/gateway.py:1276-1329 | A page is stored and returned only if its generation is still current and no delete is under way, and lifts the quarantine |
| `MessageLifetime.TurnExactly` | src/maddyweb/gateway.py:1291-1307 | In every history a reader's turn waits for all deletes of its mailbox exactly while there are any, otherwise returns exactly a cached page that has not expired in a mailbox that is not quarantined, and fetches exactly if there is none |
| `MessageLifetime.ReturnedPageIsRecent` | src/maddyweb/gateway.py:1291-1329 | With a clock that does not run backwards: a page that is returned is what the mailbox showed when the helper read it for a reader, who got it less than five seconds before |
| `MessageLifetime.LateAnswer` | src/maddyweb/gateway.py:1307-1329 | For every delay a history in which a reader returns a page that the mailbox has not shown for that long, because its answer was that long under way |
| `MessageLifetime.AgainOnlyIfDisturbed` | src/maddyweb/gateway.py:1318-1322 | A reader fetches again only if its mailbox was invalidated since it began to |
| `MessageLifetime.EntryStays` | src/maddyweb/gateway.py:938-943 | An entry leaves the cache only by an invalidation of its mailbox, by expiry, for want of room among 128, or for a newer page under its key; a page that its reader returns is stored |
| `SmtpData.EncodeMeaning` | src/maddyweb/helper.py:731-776 | The byte-by-byte encoder computes the dot-stuffed normal form of the whole message, which is canonical text: lines that end in CR LF and hold no other CR or LF |
| `SmtpData.EncodedLines` | src/maddyweb/helper.py:731-776 | No byte written is a bare CR or LF, no line is a single dot, and what is written for a non-empty message ends in CR LF |
| `SmtpData.Transparency` | src/maddyweb/helper.py:731-776 | A receiver that undoes dot-stuffing gets back the message with CR, LF and CR LF each as CR LF, and whatever follows the terminator |
| `SmtpData.NoEarlyEnd` | src/maddyweb/helper.py:731-776 | Nothing written before the whole terminator is out ends the message for a receiver |
| `SmtpData.Push` | src/maddyweb/helper.py:754-770 | One byte: what is written plus what is buffered grows by the encoding of that byte |
| `SmtpData.PushAll` | src/maddyweb/helper.py:741-770 | A chunk of any size: written plus buffered is the encoding of all bytes so far |
| `SmtpData.CopyData` | src/maddyweb/helper.py:736-770 | For every chunking of reads and flushes the declared bytes are encoded, or the spool is shorter, or the channel failed after a part of the encoding |
| `SmtpData.WriteData` | src/maddyweb/helper.py:731-776 | Normal return means the spool has the declared length and exactly its encoding was written; on every other exit what was written does not end the message |
| `SmtpSubmission.ReplyReadsRendered` | src/maddyweb/helper.py:691-714 | Reading a rendered reply of any number of lines within the limit gives its code and consumes exactly its lines |
| `SmtpSubmission.ReplyExactly` | src/maddyweb/helper.py:691-714 | A reply is read exactly where lines within the limit all bear one code, with a dash behind it except for the last one, which has a space |
| `SmtpSubmission.Channel.Response` | src/maddyweb/helper.py:691-714 | Reads exactly one complete reply, or fails where the reply is broken, too long, malformed or inconsistent |
| `SmtpSubmission.Channel.Command` | src/maddyweb/helper.py:716-728 | Success means the whole line was written and the reply after it has an expected code; a refusal carries the unexpected code; otherwise the channel broke or there was no complete reply |
| `SmtpSubmission.Authenticate` | src/maddyweb/helper.py:795-817 | Goes on exactly after the replies 220, 250 and 235, or 334 and 235; otherwise the last reply is the first that does not fit and is reported with its stage, or there is no further reply; nothing but command lines was written |
| `SmtpSubmission.SendEnvelope` | src/maddyweb/helper.py:867-882 | Goes on exactly after 250 for the sender, 250 or 251 for every recipient and 354 for DATA; otherwise the same |
| `SmtpSubmission.EndBody` | src/maddyweb/helper.py:884-905 | Once the encoding is written: accepted with 250 as the next reply, rejected with any other, or unknown if the channel broke or there is none, each with what it proves about bytes and replies |
| `SmtpSubmission.SendBody` | src/maddyweb/helper.py:883-905 | Encoding plus terminator: every outcome is explained by what was written and read since the 354 |
| `SmtpSubmission.Submit` | src/maddyweb/helper.py:838-907 | Accepted only if a receiver has the exact message and a 250 came after the terminator; a transport error only if no terminator was ever complete; otherwise a rejection, or unknown with no reply after the body. The body is begun only after all lines of the envelope and replies that all fit. While the channel does not break, the replies decide the outcome, stage and code included (`Decided`) |
| `SmtpSubmission.HeardRendered` | src/maddyweb/helper.py:691-714 | The replies of a conforming server, of any number of lines each, are all heard, with their codes |
| `SmtpSubmission.ServerAccepts` | src/maddyweb/helper.py:838-907 | A server that answers 220, 250, 235, 250, 250 or 251 for each recipient, 354 and 250 has the message accepted |
| `MessageWindow.WindowIsNewest` | src/maddyweb/maddy.py:2337-2421 | Whatever changes between the two commands, a window that is returned is the newest limit+1 messages up to the anchor in the second mailbox, by filtering, sorting and taking |
| `MessageWindow.WindowAtAnchor` | src/maddyweb/maddy.py:2337-2421 | The window is returned exactly if the anchor still stands at its sequence number, and is stale otherwise |
| `MessageWindow.NewestIsSlice` | src/maddyweb/maddy.py:2337-2421 | In a mailbox of increasing UIDs, filter-sort-take is the reversed slice that ends at the anchor |
| `MessagePages.BuildPage` | src/maddyweb/helper.py:2995-3025 | The loop appends the longest prefix of records that fits the frame and sets the next offset to the first one left out |
| `MessagePages.PagingIsGood` | src/maddyweb/helper.py:2970-3025 | Over a mailbox that only gains mail, whatever the frame: following `next_offset` from 0 delivers a prefix of the first mailbox in descending UID order, in non-empty pages of at most 48 KiB, nothing stale; it stops with an error exactly before a message that does not fit a frame alone, and does not outlast the number of messages |
| `MessagePages.OnePage` | src/maddyweb/helper.py:2970-3025 | One request at any message: refused exactly if that message does not fit a frame alone, otherwise the longest run of messages from it on that fits limit and frame, and the offset of the next one |
| `MessagePages.PagingIsComplete` | src/maddyweb/helper.py:2970-3025 | If every message fits a frame alone, as many requests as there are messages deliver every message of the first mailbox once, newest first, and then stop |
| `MessagePages.CompleteExactly` | src/maddyweb/helper.py:2970-3025 | For every frame that does not shrink when records are added, the walk finishes if and only if every message fits alone |
| `MessagePages.EncodedSteady` | src/maddyweb/helper.py:3007-3014 | The encoding of a page as JSON is such a frame, whatever the records hold besides the UID |
| `MessagePages.HelperCompleteExactly` | src/maddyweb/helper.py:2970-3025 | So with the helper's own frames the walk finishes, with the whole mailbox, if and only if record, offset, limit and next offset of each message alone need at most 48 KiB |
| `MessagePages.FlagsStopPaging` | src/maddyweb/helper.py:2995-3018 | Flags are not cut: a message whose flags exceed 48 KiB stops every walk of any length at itself, and it and all older messages are never delivered |
| `MessagePages.LongFlagIsOversized` | src/maddyweb/helper.py:3014-3018 | One message with a flag of 50000 characters, which the line limit of 64 Ki characters admits, cannot be listed |
| `MessagePages.ExpectedOrder` | src/maddyweb/helper.py:2970-3025 | That list holds every message once, in strictly descending UID order, with its text up to 512 characters |
| `MessagePages.FollowFrom` | src/maddyweb/helper.py:2970-3025 | The walk from any message on is good in the same sense if each of its pages is |
| `RuleRun.RunIsExact` | src/maddyweb/helper.py:2858-2962 | In every state of a run with mail arriving between steps: the state re-validates, done exactly if the cursor is 0, the evaluated messages are a prefix of all messages in order, scanned is their number and moved = matched the number of matches; completed exactly after the sum of ceil(n/20) steps |
| `RuleRun.CompletedRun` | src/maddyweb/helper.py:2858-2962 | At completion every message present at creation was evaluated exactly once in descending UID order, each source holds exactly its unmatched messages and what has arrived, and the target has gained exactly the matches |
| `RuleRun.NextInv` | src/maddyweb/helper.py:2858-2962 | Every step and every delivery keeps the invariant of the run |
| `RuleRun.HistoryInv` | src/maddyweb/helper.py:2722-2748 | A new run state satisfies the invariant, and so does every later state |
| `RuleRun.SelectionAccepted` | src/maddyweb/helper.py:1217-1236 | The UIDs a step asks to be moved are always 1 to 50 distinct UIDs in range |
| `UidSelection.SelectedMessageUidSet` | src/maddyweb/helper.py:1217-1236 | The check accepts a text if and only if it is the comma-separated decimal form of 1 to 50 distinct UIDs in range, and gives it back unchanged |
| `UidSelection.SelectionIs` | src/maddyweb/helper.py:1217-1236 | Such texts are exactly those whose items are 1 to 50 different digit strings in range without a leading 0 |
| `UidSelection.StepSelection` | src/maddyweb/helper.py:2922-2928 | The text that a step of the run hands to the check is always accepted |
| `RuleRun.Progress` | src/maddyweb/helper.py:2858-2962 | What the cursors have passed is a prefix of everything, and all of it exactly when the index is at the end |
| `RuleRun.RunStep` | src/maddyweb/helper.py:2858-2962 | The step as it assigns cursors, counters and index is the function of the history lemmas, failures included |
| `RuleRun.WorkStep` | src/maddyweb/helper.py:2892-2962 | One batch: evaluate, move, advance the cursor, skip finished sources |
| `RuleRun.Evaluate` | src/maddyweb/helper.py:2916-2921 | The loop collects exactly the matching candidates in order |
| `RuleRun.SkipDone` | src/maddyweb/helper.py:2877-2878 | The loop stops at the first source that is not done |
| `RuleStep.FailsExactly` | src/maddyweb/helper.py:2858-2962 | On any mailboxes a call fails exactly if the source is gone, the message at its cursor is gone, or something matches and there is no target; it then leaves all mail, cursors and counters but that of failures as they were |
| `RuleStep.MovesExactly` | src/maddyweb/helper.py:2892-2962 | Otherwise it evaluates the message at the cursor and the nineteen before it, moves exactly those that match to the end of the target in order, and moved grows by as many as have left the source |
| `MailboxDeletion.MigrateAndDeleteMailbox` | src/maddyweb/maddy.py:2115-2249 | With any command failing with any partial effect and mail arriving at any time: in every state one of source, quarantine and target holds all mail the source had; normal return means source and quarantine are gone and the target gained that mail and all deliveries once; no rename to a name seen listed. Refused exactly if the first listing shows that the source is protected, missing, a parent or the target, or that the target is missing, and then nothing is changed. Otherwise it fails only if a command fails, all drawn names are in use, the source is created anew or UIDs run out, and then no mail stays in quarantine unless the restoration fails too |
| `MailboxDeletion.Migrate` | src/maddyweb/maddy.py:2144-2206 | The same for the part after the checks |
| `MailboxDeletion.Quarantine` | src/maddyweb/maddy.py:2145-2158 | After a verified rename the quarantine holds all mail and the source is gone; it fails only if a command fails or the source is there again |
| `MailboxDeletion.CopyOut` | src/maddyweb/maddy.py:2160-2169 | After a verified copy the target holds everything the quarantine holds; it fails only if a command fails, UIDs run out or the source is there again |
| `MailboxDeletion.EmptyOut` | src/maddyweb/maddy.py:2171-2186 | Removing the copied messages, wholly or partly, keeps the mail in the target |
| `MailboxDeletion.RemoveQuarantine` | src/maddyweb/maddy.py:2188-2203 | After a verified removal the migration is finished |
| `MailboxDeletion.Restore` | src/maddyweb/maddy.py:2220-2249 | Restoration loses no mail, never renames onto a name it has seen listed, and leaves no mail in quarantine while no source is there, unless a command fails |
| `MailboxDeletion.PickName` | src/maddyweb/maddy.py:2208-2218 | Picks a drawn name not in use, and fails exactly if all of them are |
| `MailboxDeletion.CheckNames` | src/maddyweb/maddy.py:2128-2142 | Refuses exactly for those reasons |
| `AccountCreation.CreateAccount` | src/maddyweb/maddy.py:1907-1939 | A credential or mailbox that existed before is there in every state; normal return means both exist, and comes exactly if no command fails; a reported rollback or the original error means presence is as before, and comes whenever only one command fails; other accounts are untouched |
| `AccountCreation.Compensate` | src/maddyweb/maddy.py:1836-1905 | Only what was not there before is removed; reported success means presence equals the baseline, and exactly so if both final listings answered; if no command fails it succeeds and names exactly what was new |
| `AuthInvariant.NeverOrphaned` | src/maddyweb/auth.py:1104-1393 | After every sequence of store operations: pending exactly with an owner digest, which names a stored challenge of the same account; at most 5 challenges with at most 4 failures, at most 10 recovery codes, only for active accounts, and at most 5 sessions |
| `AuthInvariant.ApplyInv` | src/maddyweb/auth.py:708-1463 | Every transaction keeps this, whether it returns, refuses or rolls back |
| `AuthInvariant.RecordFailureInv` | src/maddyweb/auth.py:3460-3476 | A failed attempt, the fifth included, keeps it: the enrolment is released with its challenge |
| `AuthInvariant.DeleteExpiredInv` | src/maddyweb/auth.py:3478-3500 | Expiry keeps it |
| `AuthInvariant.ChallengeRoomMade` | src/maddyweb/auth.py:1122-1143 | Eviction leaves room for one more challenge of the account, removes only its own and never the one that owns its enrolment |
| `AuthInvariant.RoomMade` | src/maddyweb/auth.py:3712-3733 | Eviction leaves room for one more session and keeps only live ones |
| `AuthInvariant.RecoveryLeavesOne` | src/maddyweb/auth.py:1336-1393 | A successful recovery login leaves the account exactly one session and uses up the code |
| `AuthMeaning.OkExactly` | src/maddyweb/auth.py:708-1463 | Each of the 21 calls succeeds exactly under a condition on the rows and the clock: an open challenge in the right state, an unused code of a counter within one step, a stored recovery code, a session younger than 30 days and seen within 72 hours, a current grant, a token that no kept row has |
| `AuthMeaning.RefusalLeaves` | src/maddyweb/auth.py:3460-3476 | A fault changes nothing; a denial on a challenge means that the code is not one of the account, and counts one failure, the fifth removing the challenge and the enrolment it owns |
| `AuthMeaning.RecoveryLogin` | src/maddyweb/auth.py:1336-1393 | Over an open challenge of an active account: without a stored code denied, counted and no session; with one, and a free token, accepted, with exactly that code gone and the new session added to the living ones of others |
| `AuthMeaning.SessionCall` | src/maddyweb/auth.py:1395-1463 | A call on a session removes it if it is over, otherwise touches it, and a step-up lasts 300 seconds or as long as the session; nothing else changes |
| `AuthMeaning.AccountRows` | src/maddyweb/auth.py:708-1463 | After a success only the account of the call changes, to exactly the described row, and enrolments whose challenge has expired are released |
| `AuthMeaning.CodeRows` | src/maddyweb/auth.py:708-1463 | After a success an account has exactly the codes drawn for it, or its old ones but the one used, or none; those of others stay |
| `AuthMeaning.ChallengeRows` | src/maddyweb/auth.py:708-1463 | After a success the challenges of the account are dropped, or the one used is; all others stay |
| `AuthMeaning.NewChallenge` | src/maddyweb/auth.py:1104-1157 | A new challenge lasts 300 seconds and is added to the open ones, of which at most the oldest loose ones of the account have gone, so that five are left |
| `AuthMeaning.SessionRows` | src/maddyweb/auth.py:708-1463 | Calls that are no login end exactly the sessions of their account, the one named or those that are over, as their kind says |
| `AuthMeaning.LoginSessions` | src/maddyweb/auth.py:3699-3773 | A login adds one session of 30 days to the living ones, of which at most the least recently seen of the account have gone, so that five are left |
| `AuthMeaning.FreshExactly` | src/maddyweb/auth.py:3551-3568 | A TOTP code is accepted exactly if a counter within one step has it and is newer than any used, and consumes the newest such counter |
| `AuthHistory.SingleUse` | src/maddyweb/auth.py:3551-3568 | Over every history the counters accepted for an account by enrolment, login, step-up and regeneration strictly increase between two installs of its secret, each within one step of the clock (section 5.2 of RFC 6238) |
| `AuthHistory.SessionLifetime` | src/maddyweb/auth.py:3570-3623 | With a clock that does not run backwards, a session is accepted exactly if it is stored, was issued less than 30 days and last touched less than 72 hours before; step-up is confirmed exactly if besides it was granted to that session less than 300 seconds before |
| `AuthOrigin.RecoverySingleUse` | src/maddyweb/auth.py:1336-1393 | Over every history each login with a recovery code uses one that was handed out to the account before, and since the last login with that code |
| `AuthOrigin.CodeOrigin` | src/maddyweb/auth.py:708-1463 | Over every history a stored code was handed out by a successful call and has not been used since |
| `AuthOrigin.SessionEarned` | src/maddyweb/auth.py:3699-3773 | Over every history each stored session was issued by a successful login of its account at the time it bears, and no call that ends it or all sessions of that account has succeeded since |
| `Eviction.OldestSize` | src/maddyweb/auth.py:3719-3733 | Selecting the oldest rows selects as many as asked for, or all |
| `Eviction.OldestFirst` | src/maddyweb/auth.py:3719-3733 | No row that is kept comes before one that is selected |
| `Eviction.FindOldest` | src/maddyweb/auth.py:3719-3733 | The loop finds these rows |
| `AuthStore.Store.CreatePendingChallenge` | src/maddyweb/auth.py:1104-1157 | The statements compute exactly the transaction that the history lemmas are about: expiry, eviction, a unique token, the new row; an unknown account or no unique token rolls back |
| `AuthStore.Store.BeginTotpEnrollment` | src/maddyweb/auth.py:1159-1205 | Likewise: the challenge becomes owner of the pending enrolment, or the transaction rolls back |
| `AuthStore.Store.ConfirmTotpEnrollment` | src/maddyweb/auth.py:1207-1278 | Likewise: an accepted code activates the account, stores ten codes and issues a session; a wrong one is counted and committed |
| `AuthStore.Store.CompleteTotpChallenge` | src/maddyweb/auth.py:1280-1334 | Likewise: an accepted code consumes counter and challenge and issues a session; a wrong or reused one is counted and committed |
| `AuthStore.Store.CompleteRecoveryChallenge` | src/maddyweb/auth.py:1336-1393 | Likewise: an accepted code is used up, other sessions are revoked and one is issued; a wrong one is counted and committed |
| `AuthStore.Store.AuthenticateSession` | src/maddyweb/auth.py:1395-1411 | Likewise: a live session is touched, an expired one removed |
| `AuthStore.Store.MarkStepUp` | src/maddyweb/auth.py:1413-1442 | Likewise: the grant lasts 300 seconds and ends with the session at the latest |
| `AuthStore.Store.RequireStepUp` | src/maddyweb/auth.py:1444-1463 | Likewise: succeeds only for a live session with a current grant |
| `AuthStore.Store.IssueSession` | src/maddyweb/auth.py:3699-3773 | Likewise: expiry and eviction first, then the new session; none if no unique token was drawn |
| `AuthStore.Store.RegenerateRecoveryCodes` | src/maddyweb/auth.py:865-892 | Likewise: an accepted fresh code replaces all recovery codes and revokes challenges and sessions, any other call changes nothing |
| `AuthStore.Store.VerifyTotp` | src/maddyweb/auth.py:913-921 | Likewise: an accepted fresh code moves the counter, any other call changes nothing |
| `AuthStore.Store.RotateTotp` | src/maddyweb/auth.py:822-863 | Likewise: a new secret resets the counter, replaces the codes and revokes challenges and sessions |
| `AuthStore.Store.SetRole` | src/maddyweb/auth.py:739-760 | Likewise: pending challenges and the enrolment they own are revoked, sessions too if the change asks for it |
| `AuthStore.Store.MatchingTotpCounter` | src/maddyweb/auth.py:4043-4050 | The loop finds the counter that the specification names |
| `AuthStore.Store.RecordChallengeFailure` | src/maddyweb/auth.py:3460-3476 | A failure is counted; the fifth removes the challenge and releases its enrolment |
| `AuthStore.Store.DeleteExpiredChallenges` | src/maddyweb/auth.py:3478-3500 | Exactly the expired challenges go, and the enrolments they own are released |
| `AuthStore.Store.RevokePendingChallenges` | src/maddyweb/auth.py:3526-3549 | All challenges of the account go and its enrolment is released |
| `RateLimiter.TableIsBounded` | src/maddyweb/auth.py:2015-2112 | From any table at all, an attempt leaves at most 1024 rows |
| `RateLimiter.AllOrNothing` | src/maddyweb/auth.py:2015-2112 | An admitted attempt charges each of its buckets once and no other; a refused one charges none |
| `RateLimiter.AdmittedBelowLimit` | src/maddyweb/auth.py:2015-2112 | An attempt is admitted only if none of its buckets is full |
| `RateLimiter.EvictSize` | src/maddyweb/auth.py:2040-2053 | Eviction removes exactly as many rows as asked for |
| `RateLimiter.EvictOrder` | src/maddyweb/auth.py:2040-2053 | It removes those that come first in the order of the statement |
| `RateLimiter.Limiter.Reserve` | src/maddyweb/auth.py:2015-2112 | The statements compute the specified table and delay, and keep row numbers unique |
| `RateLimiter.Limiter.Clean` | src/maddyweb/auth.py:2026-2053 | Rows whose window is over go, and then the first ones down to the bound |
| `RateBound.BucketBound` | src/maddyweb/auth.py:2015-2112 | With a clock that does not run backwards, any half-open interval of a window's length admits at most twice the limit in a bucket that no success clears |
| `RateBound.PasswordBound` | src/maddyweb/auth.py:100-109 | Over every history at most 240 password attempts in all and 60 from one address are admitted in any 300 seconds |
| `RateBound.AccountBound` | src/maddyweb/auth.py:100-109 | And at most 30 on one account in any 900 seconds while none is removed, and 20 on it from one address until one of those succeeds |
| `RateBound.PasskeyBound` | src/maddyweb/auth.py:106-109 | And at most 240 passkey attempts in all in any 300 seconds, and 60 from one address until one succeeds |
| `RateBound.PasswordExactly` | src/maddyweb/auth.py:2015-2112 | A password attempt is admitted exactly if the table has room and the windows have seen fewer than 120 in all, 30 from the address, 15 on the account and 10 on both |
| `RateBound.RefusalForgotten` | src/maddyweb/auth.py:2054-2112 | After a limit refusal, later answers are as if the attempt had not been made |
| `RateBound.NotBefore` | src/maddyweb/auth.py:2054-2112 | Before the announced delay is over no attempt on the same buckets is admitted |
| `RateBound.AdmittedThen` | src/maddyweb/auth.py:2054-2112 | At that time one is admitted, if the table has room for its rows |
| `Certificates.DeployAndReload` | src/maddyweb/certificates.py:1088-1138 | With a fault before or after the effect of any write or reload: normal return means the server has loaded the new pair, and comes for a pair that belongs together exactly if no command fails; "prior material was restored" means both files are as they were; only a failed rollback leaves anything else, and takes two failures |
| `Certificates.CopyAllowlistedSource` | src/maddyweb/certificates.py:1194-1287 | Both files hold a valid new pair, exactly if there was one and no command failed; or are as they were; or rollback failed, after two failures |
| `Certificates.RestorePriorMaterial` | src/maddyweb/certificates.py:1226-1257 | Success means both files are as they were, absence included, and only a command that fails prevents it |
| `DockerCertificates.StageAll` | src/maddyweb/docker_certificates.py:440-451 | Only staging files change, and all that exist are listed for cleaning up |
| `DockerCertificates.PlaceAll` | src/maddyweb/docker_certificates.py:452-458 | Every destination gets its file or is removed, and what is still staged stays listed |
| `DockerCertificates.InstallMaterial` | src/maddyweb/docker_certificates.py:413-465 | Success puts every file in place; success or a clean failure leaves no staging file; no temporary file stays on the host and no other path changes |
| `DockerCertificates.Restore` | src/maddyweb/docker_certificates.py:467-478 | Success means both destinations are as asked for and nothing is staged |
| `DockerCertificates.Deploy` | src/maddyweb/docker_certificates.py:480-548 | Normal return, for a valid pair exactly if no command fails: the new pair with the old owners; prior material restored: both as before; no staging file left in either case; a failed rollback takes two failures |
| `DockerReload.DeployAndReload` | src/maddyweb/certificates.py:1088-1138 | In container mode: live, for a valid pair exactly if no command fails, means the server has loaded the new pair; restored and reloaded means it has loaded the old one; a mixed pair or a staging file is left only by an exit that reports a failed rollback, after two failures |
| `RuleOrder.RuleTable.Renumbering` | src/maddyweb/auth.py:3098-3111 | Every single row update of the shift by 1000 and of the renumbering respects UNIQUE(account, position); the rows end up at 0 to n-1 in the given order, otherwise unchanged |
| `RuleOrder.RuleTable.ShiftAll` | src/maddyweb/auth.py:3098-3111 | In whatever order rows are visited, no shifted row meets an unshifted one |
| `RuleOrder.RuleTable.Assign` | src/maddyweb/auth.py:3098-3111 | No assigned position is taken at that moment |
| `RuleOrder.RuleTable.CreateRule` | src/maddyweb/auth.py:2266-2327 | The table shows the specified list, or is unchanged after a refusal |
| `RuleOrder.RuleTable.UpdateRule` | src/maddyweb/auth.py:2460-2525 | The same for a change of one rule |
| `RuleOrder.RuleTable.DeleteRule` | src/maddyweb/auth.py:2527-2537 | The same for a deletion |
| `RuleOrder.RuleTable.ReorderRules` | src/maddyweb/auth.py:2539-2567 | The same; refused exactly if the list does not name each rule once |
| `RulePublication.AlwaysAcceptable` | src/maddyweb/auth.py:2266-2567 | After every run of creations, changes, deletions and reorderings the positions are 0 to n-1 with n at most 100, ids are different, and the delivery filter's range and uniqueness checks accept the list |
| `MailRules.ResultMeaning` | src/maddyweb/auth.py:2266-2567 | An operation is carried out exactly if it is possible: fewer than 100 rules and a new id; a rule with the id and the revision; a rule with the id; the very ids in another order. Its effect: the new rule last with revision 1; the given values at the old place with the next revision; the others moved up; each rule at the place of its id |
| `MailRules.EffectOne` | src/maddyweb/auth.py:2266-2567 | That description fits only one list |
| `FilterEvaluation.EvaluateFilterMessage` | src/maddyweb/filter_bridge.py:82-153 | No target for an empty message or one of more than 25 MiB, even if the snapshot is bad; otherwise malformed exactly for an unacceptable snapshot, and else the target is that of the first matching rule in position order that stops, else of the last match, else none |
| `FilterEvaluation.Check` | src/maddyweb/filter_bridge.py:100-140 | Accepts exactly well-formed lists of at most 100 rules with unique ids, and prepares exactly the enabled ones |
| `FilterEvaluation.Scan` | src/maddyweb/filter_bridge.py:147-153 | The loop with its early exit computes that meaning |
| `FilterEvaluation.DeliversOne` | src/maddyweb/filter_bridge.py:147-153 | Rules with distinct positions have only one meaning |
| `FilterEvaluation.DeliversAnyOrder` | src/maddyweb/filter_bridge.py:141-153 | The meaning does not depend on the order of the array, nor on disabled rules |
| `RulePublication.Dispatcher.Commit` | src/maddyweb/helper.py:2519-2710 | The transaction changes the stored rules while delivery is paused, and agreement holds |
| `RulePublication.Dispatcher.Perform` | src/maddyweb/helper.py:2519-2710 | At every moment each snapshot is absent, empty or equal to the stored rules. The operation is carried out, with its effect on the rules of this account and no other, exactly if it is possible and pausing and the transaction work; every later failure is named and leaves delivery paused or only the answer missing; a ready answer means the new rules are published |
| `RulePublication.Dispatcher.Publish` | src/maddyweb/rule_snapshots.py:56-90 | A publication that fails leaves the old or the new snapshot, and agreement holds at that moment too |
| `RulePublication.Dispatcher.PublishStored` | src/maddyweb/helper.py:2482-2512 | Publishing the stored rules: complete, failed before or after its effect, or nothing done because the rules could not be read |
| `RulePublication.Dispatcher.Reconcile` | src/maddyweb/helper.py:2469-2480 | Started on any snapshots: success means exactly the stored rules are published, and comes unless something cannot be read, is unsafe or fails; from the moment all old snapshots are removed agreement holds whatever fails; before that only old snapshots are left |
| `RulePublication.Dispatcher.Purge` | src/maddyweb/rule_snapshots.py:140-142 | Old snapshots are removed one by one; a failure leaves a part of them, unchanged |
| `RulePublication.Dispatcher.PublishAll` | src/maddyweb/rule_snapshots.py:145-148 | The stored rules are published account by account; agreement holds after each, also where it fails |
| `RulePublication.Dispatcher.Serve` | src/maddyweb/helper.py:2519-2710 | In every moment of every run of operations each snapshot is absent, empty or equal to the stored rules; from one operation to the next these change only by its effect, and one that is possible and meets no failure is answered well |
| `RulePublication.Dispatcher.DeliverMessage` | src/maddyweb/filter_bridge.py:82-153 | A message in range that can be read is filed exactly as the stored rules say where they are published; it is filed nowhere where delivery is paused or there is no snapshot; never malformed, and never filed otherwise than by the stored rules |
| `RulePublication.FiledAlways` | src/maddyweb/filter_bridge.py:82-153 | The same for an answer from the snapshot of any moment inside a run of operations, not only between them |
| `ConfigScan.StripCommentsAndStrings` | scripts/manage-submission.py:78-101 | The character loop computes the code of a line, and refuses exactly an open string |
| `ConfigScan.ScanBlocks` | scripts/manage-submission.py:104-126 | The loop over depth and active start computes the blocks of the scan and, for each, the depth before each of its lines, and refuses unbalanced braces |
| `ConfigMeaning.CodeExactly` | scripts/manage-submission.py:78-101 | A line is accepted exactly if it is code and well-ended quoted strings with an optional comment behind them, and its code is that with the strings blank |
| `ConfigMeaning.BlocksExactly` | scripts/manage-submission.py:104-126 | The scanner accepts exactly the texts whose lines have code and whose braces are balanced, and finds exactly the blocks that begin with a header outside all braces and end with the first line behind which the text is outside again, in their order |
| `ConfigScan.JoinLines` | scripts/manage-imap-filter.py:114-137 | Joined lines split into the same lines |
| `ConfigScan.JoinSplit` | scripts/manage-imap-filter.py:114-137 | A split text joins to the same text |
| `ImapFilterConfig.BuildThenRemove` | scripts/manage-imap-filter.py:114-180 | For every configuration that the editor accepts, building succeeds and verifies itself, and removing gives the text without the blank line before the closing line, if there is one |
| `ImapFilterConfig.RoundTripExact` | scripts/manage-imap-filter.py:166-180 | Removing gives the very text back if and only if the line before the closing line is not blank |
| `ImapFilterConfig.BlankLineIsLost` | scripts/manage-imap-filter.py:114-180 | A configuration to which the filter is added and which then comes back without its blank line |
| `ImapFilterScript.CommandsAreProper` | scripts/manage-imap-filter.py:14-26 | The script's markers, words and both commands are as the proofs assume them |
| `ImapFilterScript.ScriptRoundTrip` | scripts/manage-imap-filter.py:114-180 | For every configuration to which the script adds its filter, with either command: removing gives the text back if and only if the line before the closing line is not blank, and else the text without that line |
| `ImapFilterScript.ScriptLosesBlank` | scripts/manage-imap-filter.py:166-180 | A configuration that the script accepts and does not give back |
| `ImapFilterMeaning.ScriptAddsExactly` | scripts/manage-imap-filter.py:114-140 | The script adds its filter exactly to balanced configurations with one storage block, on several lines and without a filter, and no marker; and it adds exactly its five lines, indented by four spaces more than the block, before the block's closing line, with a blank line first where text stands directly before them |
| `SubmissionConfig.RoundTrip` | scripts/manage-submission.py:167-291 | For any rules of choosing and checking: removing what was added gives the text back, its last line ended, if the default block's last line is reached one brace deep, and is refused otherwise |
| `SubmissionConfig.CopyOfBlock` | scripts/manage-submission.py:104-126 | The copied lines with the two added ones are one complete block exactly in that case |
| `SubmissionRules.ScriptIsProper` | scripts/manage-submission.py:21-44 | The script's own words and rules satisfy what that result assumes; in particular what it checks of the copy when it is written implies what it checks before removal |
| `SubmissionRules.ChoiceIsProper` | scripts/manage-submission.py:144-227 | The block, indentations and position that the script chooses satisfy it too, for every text |
| `SubmissionRules.CollectDirectives` | scripts/manage-submission.py:178-191 | The loop over the inner lines collects exactly the `tls` and `auth` directives at depth 1 |
| `SubmissionScript.ScriptRoundTrip` | scripts/manage-submission.py:167-291 | For every text to which the script adds its listener: removing gives the text back, its last line ended, if the default block's last line stands at depth 1, and is refused otherwise |
| `SubmissionScript.EditedIsBalanced` | scripts/manage-submission.py:104-126 | For every such text the edited configuration passes the scanner if and only if that line stands at depth 1 |
| `SubmissionScript.LimitIsInside` | scripts/manage-submission.py:200-228 | For every such text the added limit stands at depth 2 of the copy, and inside the copied `limits` block if and only if that block ends with a lone brace |
| `SubmissionRefusal.FamilyAccepted` | scripts/manage-submission.py:144-256 | The script adds its listener to each of four complete configurations in the shape of Maddy's default one |
| `SubmissionRefusal.AddedButNotRemoved` | scripts/manage-submission.py:259-291 | For those whose last brace shares a line, removing is refused and the edited text is unbalanced; for the others the text comes back |
| `SubmissionRefusal.LimitMisplaced` | scripts/manage-submission.py:200-228 | For those whose `limits` block ends behind other words the added limit is not in `limits`; for the others it is |
| `TextSearch.OccurrencesLined` | scripts/manage-submission.py:248-255 | A word without a line end occurs in joined lines as often as in the lines together |
| `TextSearch.MatchHasWord` | scripts/manage-submission.py:31-44 | Where a pattern matches, each of its literal words is in the text |
| `TextSearch.PatternFound` | scripts/manage-submission.py:31-44 | A pattern is found wherever its text stands between word boundaries |

## Left out

Parts of the repository:

- Cryptography, WebAuthn, X.509, HMAC, JSON and TOML: digests are injective numbers, the TOTP code of a counter and the validity of a certificate pair are given functions.
- Sockets, processes, threads, SQLite, Docker and file modes: only the effects and failures of each command are modelled.
- Web pages, wire framing, configuration validators, release scripts, command-line entry points, `SemVer` ordering and RFC 2047 decoding.
- `auth-purge`: it deletes stored rules without touching the snapshot, so the agreement of snapshots is about dispatcher operations.
- Passkey tables and ceremonies: on the modelled tables a passkey step-up acts like `MarkStepUp` or, refused, like `Authenticate`, and a passkey login like issuing a session.
- Roles, e-mail lookup, schema migrations, and the bootstrap of several accounts in one transaction: accounts are named by id and bootstrapped one by one.
- Condition matching, and the format and permissions of snapshot files: matching is a given predicate.
- Errors of the database inside a transaction of the store: they leave the tables as they were, so a history with such calls is one without them.

Assumptions of single results:

- AccountCache.ReturnedListIsCurrent: assumes that this gateway is the only writer, and that the shielded inner task is never cancelled itself.
- MessageCache.ReturnedPageIsCurrent: the invalidations that moves, flag changes and rule steps issue are steps of the histories; the changes they make to the mailbox are untracked in the code and appear as changes by others, for which nothing is claimed.
- SmtpSubmission.Submit: is about channels that report failures as `SMTPTransportError`; the raw `OSError` that the socket channel lets through is not modelled.
- MessagePages.HelperCompleteExactly: the size of the members of a record other than its UID is a given function of the UID and the cut text, so the flags of a message do not change during a walk.
- RuleRun.RunIsExact: new mail arrives between steps, not within one, and no command fails; the step itself is modelled with its failure paths.
- MailboxDeletion.MigrateAndDeleteMailbox: others deliver mail and create mailboxes but delete none, and do not know the random name; renaming onto an existing name is refused by the server (section 6.3.5 of RFC 3501).
- Certificates.DeployAndReload: the temporary file behind an atomic replacement and file modes are not modelled.
- DockerCertificates.Deploy: staging names are fresh, as random tokens are; the owner that is reported for a missing file is not modelled.
- DockerReload.DeployAndReload: the guard against using a rollback twice is not modelled, because this caller uses it once.
- RulePublication.Dispatcher.Perform: compilation and mailbox checks of a new rule are one given answer, and so is a database read that fails before anything is changed; the name of a rule, which delivery does not read, is not modelled.
- RulePublication.Dispatcher.Reconcile: entries of the directory that are no snapshots are one given answer, and publishing one snapshot is atomic.
- ImapFilterConfig.BuildThenRemove: lines end in LF or CR LF and white space is space, tab, CR and LF; the filter command is any line of plain text with balanced braces, as the script's two commands are (`ImapFilterScript.CommandsAreProper`).
- SubmissionConfig.RoundTrip: is stated for any rules, of which it assumes what `SubmissionRules` proves of the script's own.
- SubmissionScript.ScriptRoundTrip: lines end in LF or CR LF; white space is space, tab, CR and LF, and letters, digits and lower case are those of ASCII, where the script's regular expressions follow Unicode.
