# Verification of the remediation service

This project models the parts of the Devin remediation service where workers, webhook deliveries, scans and
crashes meet on one shared table, together with the retry loop its HTTP calls go through, the Markdown it prints
from untrusted findings, the pages it reads from GitHub and the filing of findings as issues. It proves what these
parts promise, over all inputs, all histories of store calls and all interleavings of workers.

`dafny verify dfyconfig.toml` checks everything.

## How the model is built

- **`table.dfy`, `store.dfy`** The task table. Each store call is one guarded update of a row (`Table`), and the
  object that the service mutates (`Store.TaskStore`) makes exactly those updates. The clock is in microseconds.
- **`storelog.dfy`** Any sequence of store calls and waits, by anyone, in any order. Laws that need nothing but the
  table live here: the row invariant, dead tokens, the gap between two grants, how often scans can win a lease,
  recovery, and the compensation of a detach.
- **`protocol.dfy`** The workers. A state is the table plus every queued message, task and handler, each with what it
  remembers between two store calls. A step makes at most one store call; anything may be interleaved, lost or
  crash in between, and a publish that raises may still have queued its message. Seen from the table an execution is a
  history of `StoreLog` (`ExecutionIsRun`), so those laws hold of all executions.
- **`columns.dfy`** What each writing step of the protocol does to the row, column by column, and what each publishing
  step sends, told without the definitions that the steps are made of.
- **`pollchains.dfy`, `retrycredit.dfy`, `creationbound.dfy`** Whole-run properties of executions: one activity per
  poll token, dead chains, conservation of retries per recorded pull request, the number of sessions under creation.
- **`worklog.dfy`, `workers.dfy`** The worker, task and webhook code as imperative methods. `World.Interfere` lets the rest of the
  system take any steps between any two store calls of the code, and every method keeps `Valid()`: the state has been
  reached by an execution of `Protocol`, so every law of the protocol holds at every point of the code
  (`World.LawsHold`). Beyond that each contract gives the exact sequence of steps its activity took
  (`World.Did`, a function of `WorkLog`) as a function of the inputs and of what the store and the outside answered. A crash is a step as well,
  and no contract but that of an escaping exception allows one; so a body that skips, repeats or reorders a store call,
  or gives up early, is refused. That others get a turn between two store calls shows in the bodies only.
  The contracts of the entry points also say, in columns and answers alone, what is decided and written; and for a
  caller whom nobody disturbs (`World.Alone`) what the table and the queue hold on return.
- **`quiet.dfy`** The invariants behind that: how a scan or a handler makes its way through its list undisturbed.
- **`httpretry.dfy`** The retry loop, its at-most-once guarantee, and the time it takes against the creation lease.
- **`markdown.dfy`, `whitespace.dfy`, `fencedblock.dfy`, `blockscan.dfy`, `prose.dfy`, `mentions.dfy`, `discovery.dfy`** Inline code,
  code blocks, mentions, the issue body and its fingerprint marker, with readers that follow CommonMark 0.31.2 in code
  spans, fenced and indented code, and paragraphs.
- **`references.dfy`, `github.dfy`** The issue-reference scanner, the page loops and the search for an open pull request.
- **`ingest.dfy`, `backlog.dfy`** The filing loop, and repeated runs of it over a growing tracker.

Assumptions, each one stated where it is used: a store call is atomic and reads the clock at the instant it commits;
poll tokens are drawn fresh; the broker delivers a message at most once; a listing does not change while its pages are
read. External answers (GitHub, Devin, the broker, clock readings,
random jitter) are parameters, and every theorem holds for all of them.

## What turned out not to hold

- **One creation per issue.** The docstring at `app/remediation.py:86-88` promises that two tasks never both reach
  `create_session`. A failed creation is settled by two calls, `upsert(status="failed")` and a `release_poll` without a
  token (`app/remediation.py:149-150`). If another task claims the issue between them, the release clears that task's
  lease and a third task claims the issue: `CreationBound.SettlementRace` is that run. A poll that reads its row
  (`app/remediation.py:198-206`) and writes it after hearing from Devin and GitHub has the same effect when the issue was
  completed and claimed again in between: `CreationBound.StalePollRace`. `ReservationExact` says which steps take the
  reservation from a creator still at work and which do not, and `SecondCreatorExact` that exactly after such a step a
  second creator can join at once: one that records a pull request, a release or a terminal poll answer that comes
  late, or the failure of another creation. `CreatorsBounded` counts these and gives the bound that holds in every
  interleaving, and `CreationBounded` the promised one for runs in which the two pairs of calls are not cut by another
  write to the row; the two races show that neither half of that condition can be dropped.
- **One retry per closed pull request.** The comment at `app/webhooks.py:114-115` promises that a close event cannot
  requeue twice. A publish that raises although the broker has queued the retry makes the handler put the pull request
  back, and a replay of the delivery then forces a second retry. From any state with a detached issue it does so if and
  only if, at the publish, the compensation applied or the row pointed at the pull request again
  (`RetryCredit.ReplayExact`); `RetryCredit.RetriedTwice` is the instance that starts from nothing. `CreditConserved`
  counts these publishes and nothing else beside the recordings.
- **Compensation.** `reattach_closed_pr` is said to be invalidated by any intervening write. It applies if and only if
  every write since the detach was made at the very clock reading of the detach and the row still looks detached
  (`StoreLog.CompensationApplies`). So any write invalidates it when no write shares that reading
  (`StoreLog.CompensationExact`); `StoreLog.CompensationNeedsStrictStamps` is a run in which one does and it applies.
- **Inline code.** It reads back exactly when the normalised text is not empty; empty text prints two backticks, which
  open a longer span (`Markdown.CodeSpanRoundTrip`). The fields of an issue body read back, in order, exactly when none
  is blank (`Discovery.FieldsReadBack`).
- **Mentions.** The pattern passes over an at sign behind a backtick, so that code spans stay as they are. Read block by
  block, the printed prose still mentions someone outside its code if and only if the text has such an at sign in a
  paragraph, outside the code spans of that paragraph (`Mentions.MentionsLeft`). A lone backtick before a name is one
  (`Mentions.TickHidesMention`), also when a backtick follows in the next paragraph (`Mentions.NextParagraphIsNoHelp`),
  but not inside a fenced block (`Mentions.FencedIsNoMention`).
- **The snippet of an issue.** Its block reads back as printed, but a message that leaves a fenced block open, such as
  three tildes, keeps a reader from getting to it as a block of its own (`Discovery.SnippetReadsBack`,
  `Discovery.TildesStayOpen`). So may HTML in the message, which is left out below.
- **Once per fingerprint.** A body contains the marker of another finding exactly if some text of the finding quotes it
  (`Discovery.MarkerIdentifies`), as a message can (`Discovery.MessageQuotes`). Bodies tell findings apart if and only if
  none quotes another's marker (`Backlog.BodiesIdentify`); where one does, the quoted finding may never be filed
  (`Backlog.QuotedNeverFiled`).
- **Open-PR scan.** A mention of an issue is a reference to it if and only if no letter, digit or slash stands before it
  and its number ends where it does (`References.MentionExact`, `References.ReferencesExact`); the substring test does
  not look, so `#120` mentions issue 12 (`References.MentionIsNotReference`).
- The repository's README says findings are looked up among open issues; the code lists open and closed ones
  (`app/github.py:143`), and so does the model.

## Model

| member | source | states |
|---|---|---|
| `Store.TaskStore.Upsert` | app/store.py:47-67 | A present argument overwrites its column, an absent one leaves it; a missing row is inserted running; the stamp is always written and the lease never. |
| `Store.TaskStore.TryInsertClaim` | app/store.py:118-139 | Inserts a leased, session-less running row exactly when there is none. |
| `Store.TaskStore.ClaimRemediation` | app/store.py:70-115 | Granted exactly when the row is absent, not running, or running session-less with a lost lease; a grant resets the whole association and leases the row, a refusal changes nothing. |
| `Store.TaskStore.ClaimPoll` | app/store.py:172-199 | Grants the drawn token exactly for the running row of that session, and with only_if_lost only when its lease is lost. |
| `Store.TaskStore.RenewPoll` | app/store.py:202-215 | Extends the lease exactly when the row still carries the token. |
| `Store.TaskStore.ReleasePoll` | app/store.py:218-231 | Drops token and lease, with a token only if the row still carries it. |
| `Store.TaskStore.DetachClosedPr` | app/store.py:234-255 | Flips exactly a non-running row that points at the pull request, and returns the stamp it wrote. |
| `Store.TaskStore.ReattachClosedPr` | app/store.py:258-277 | Restores the pull request exactly when the row is failed, detached and still carries the stamp. |
| `Table.Ascending` | app/store.py:293-294 | The keys of a query, each once, in ascending order. |
| `StoreLog.RowInvariant` | app/store.py:47-277 | In every history a poll token comes with a session and a lease and has been issued, no lease ends more than CREATE_LEASE_SECONDS from now, and no stamp lies in the future. |
| `StoreLog.SessionKept` | app/store.py:61-66 | While a row stays running with a session, only an upsert that carries a session changes it. |
| `StoreLog.DeadForever` | app/store.py:182-231 | A token that has left its row never returns, and renewals and releases carrying it change nothing. |
| `StoreLog.PollCallsSkipCreation` | app/store.py:184-228 | Poll claims, renewals and owned releases leave a session-less row as it is, so they can neither extend nor shorten nor drop a creation lease. |
| `StoreLog.GrantGap` | app/store.py:85-115 | Two grants for one issue are separated by a non-running state, a whole creation lease, or a release without a token. |
| `StoreLog.ScanExclusivity` | app/store.py:172-215 | Between two scans that win the lease of one row somebody gave it up, or every lease set since the first win, renewals included, had run out at the second. |
| `StoreLog.ScanBudget` | app/remediation.py:174-182 | One chain per lost lease: from any table on, the chains that scans start for a row are at most the leases given up and the leases run out, and one more while the last is in force. |
| `StoreLog.ScanRate` | app/remediation.py:174-182 | By the clock alone they are at most one, plus the leases given up, plus one per grace period elapsed. |
| `StoreLog.BoundedRecovery` | app/store.py:280-295 | A running row whose lease nobody touched for longer than CREATE_LEASE_SECONDS can be taken by exactly one of the remediation claim and the scan. |
| `StoreLog.CompensationApplies` | app/store.py:266-272 | Whatever the clock does, a compensation applies if and only if every write of the row since the detach was made at the detach's clock reading and the row still looks detached. |
| `StoreLog.CompensationExact` | app/store.py:258-277 | When no later write shares the detach's clock reading, a compensation applies if and only if nothing wrote the row since, and then restores everything but the status. |
| `StoreLog.CompensationNeedsStrictStamps` | app/store.py:266-272 | With one clock reading shared by a detach and an edit, the compensation applies although the row was written in between. |
| `Protocol.ExecutionIsRun` | app/remediation.py:36-239 | Every execution of workers, handlers and messages is, seen from the table, a history of single store calls. |
| `Columns.MarkCompletedWrites` | app/remediation.py:106-109 | When an open pull request was found the row is completed by it and takes over the issue's title and URL; every other column, and every other row, is kept. |
| `Columns.ClaimWrites` | app/store.py:70-115 | A claim is granted exactly for an absent, completed or failed row, or a running one without session whose lease is absent or past; the row then starts over, leased for ten minutes, and only its creation time is kept. |
| `Columns.SaveSessionWrites` | app/remediation.py:136 | The created session and its URL, if there is one, are recorded and the row runs. |
| `Columns.SaveFailedWrites` | app/remediation.py:149 | A failed creation marks the row failed and keeps the rest. |
| `Columns.DropLeaseWrites` | app/remediation.py:150 | The release that follows drops token and lease, whoever holds them. |
| `Columns.ArmNextWrites` | app/remediation.py:41-55 | A chain is taken up exactly for the running row of its session, and a lost one only if the lease is absent or past, for three minutes or for two. |
| `Columns.GiveBackWrites` | app/remediation.py:72 | A refused or finished chain gives up token and lease exactly if it still owns them. |
| `Columns.RenewLeaseWrites` | app/remediation.py:60 | A renewal extends the lease to three minutes from now exactly if the chain still owns it. |
| `Columns.SaveHopWrites` | app/remediation.py:215-239 | The saved status is completed if Devin says running and Devin or GitHub names a pull request, else Devin's; the saved pull request is Devin's if it names one, else GitHub's, else the row's; and exactly a running row is polled on. |
| `Columns.DetachWrites` | app/store.py:234-255 | Exactly a non-running row that points at the closed pull request is failed and loses it. |
| `Columns.ReattachWrites` | app/store.py:258-277 | Exactly a failed row without pull request that carries the stamp gets it back. |
| `Columns.SaveOpenedWrites` | app/webhooks.py:107 | An opened pull request completes the row and is recorded if it has a URL. |
| `Columns.SaveEditWrites` | app/webhooks.py:91-93 | An edit changes title and URL, where the delivery has them, and nothing else. |
| `Columns.RetrySends` | app/webhooks.py:135 | The retry carries the issue as GitHub described it, and is forced. |
| `Columns.ScanSends` | app/remediation.py:171-172 | A scan sends each issue as listed, forced exactly when the scan is. |
| `Columns.PollSends` | app/remediation.py:69 | A poll carries issue, session and the token of its chain. |
| `Columns.ScanFinds` | app/store.py:280-295 | A scan asks for exactly the running rows with a session whose lease is absent or past, in ascending order, each with its session. |
| `PollChains.SingleOwnerChain` | app/remediation.py:40-74 | In every reachable state each poll token is carried by at most one activity, so at most one can pass the ownership check of an issue. |
| `PollChains.DeadChainEnds` | app/remediation.py:57-61 | Once a token owns no row its chain is delivered at most one more poll in the rest of the run, and none unless one was already queued. |
| `PollChains.DeadChainIsInert` | app/remediation.py:197-206 | That poll stops at its ownership check, and renewals and releases with a dead token leave the table alone. |
| `RetryCredit.CreditConserved` | app/webhooks.py:118-139 | For each issue and pull request, retries forced plus claims still open on a retry never exceed the upserts that recorded the pull request plus the publishes that raised with the retry queued, under any replay, overlap or failed publish. |
| `RetryCredit.ReplayExact` | app/webhooks.py:118-139 | From any state with a detached issue, after a publish that raises with the retry queued, the compensation and a replay of the delivery, a second forced retry is pending if and only if at the publish the compensation applied or the row pointed at the pull request again. |
| `RetryCredit.RetriedTwice` | app/webhooks.py:134-138 | Its instance from nothing: one recording, one such publish and one replay, and two retries are forced and pending. |
| `CreationBound.ReservationExact` | app/remediation.py:119-150 | While the creator that guards the row goes on in time, a step of anybody else takes its reservation away if and only if it records a pull request, writes late a release or a terminal answer, or settles another creation. |
| `CreationBound.SecondCreatorExact` | app/remediation.py:86-88 | A second creator can join right after a step of somebody else if and only if that step records a pull request, writes late, or settles the failure of another creation. |
| `CreationBound.CreatorsBounded` | app/remediation.py:119-150 | In every interleaving sessions under creation for an issue never exceed one plus the completions and late writes that took a reservation from a creator still at work. |
| `CreationBound.CreationBounded` | app/remediation.py:77-93 | When nobody else changes the row's status or session inside either pair of calls and creators are on time, they never exceed one plus the pull requests recorded over a creation; with none of those, one creator, and the row stays leased to it. |
| `CreationBound.SettlementRace` | app/remediation.py:145-151 | The run, step by step, in which every creator is on time, no pull request is recorded, and the late release of a failed creation lets two sessions be under creation. |
| `CreationBound.StalePollRace` | app/remediation.py:198-238 | A run with no failed creation, every creator on time and no pull request recorded over a creation, in which a late poll write lets two sessions be under creation. |
| `Workers.World.LawsHold` | app/remediation.py:77-239 | At every point of the worker code, under any interference, the row invariant, the single carrier of each token and the retry credit hold. |
| `Workers.World.PublishPoll` | app/remediation.py:65-74 | Publishes once; when that raises, gives the lease back and reports failure. |
| `Workers.World.ArmPoll` | app/remediation.py:41-55 | Claims, exactly when the table grants it goes on to publish, and answers true exactly when the broker took the poll; undisturbed, the row is then leased for three minutes, or two, and the poll with its token is queued. |
| `Workers.World.ContinuePoll` | app/remediation.py:58-62 | Renews, and publishes exactly when the row still held the token; undisturbed and accepted, the row is then leased for three minutes and the next poll is queued. |
| `Workers.World.PollSessionOnce` | app/remediation.py:187-240 | Stops unless the row runs this session under this token. An owned hop that Devin answers is polled on exactly if the status is running and neither Devin nor GitHub names a pull request; undisturbed, it leaves the row completed if it ran and one was named, else with Devin's status, and with the pull request of Devin, else of GitHub, else its own. A hop without answer is polled on and writes nothing. |
| `Workers.World.PollSessionTask` | app/tasks.py:44-54 | One hop, followed by renewal and publish exactly when the poll is to go on; undisturbed and accepted, the lease then runs three minutes and the next poll is queued. |
| `Workers.World.ProcessIssue` | app/remediation.py:77-154 | The steps taken for every combination of stored status, lookup, claim, creation, save and publish; an open pull request leaves the row completed by it, with the issue's title and URL; raises exactly when the lookup does, and answers true exactly when it claimed the issue, got a session and saved it. Undisturbed, it claims exactly an absent or completed row, a failed one if forced, or a running one without session whose lease is gone; a claim without session leaves the row failed and unleased, and one with a session leaves it leased with its poll queued. |
| `Workers.World.RearmLost` | app/remediation.py:174-182 | Claims each lost chain in turn, publishes those it wins, and counts exactly the polls the broker took: all of them, undisturbed and accepted. |
| `Workers.World.ScanAndProcess` | app/remediation.py:157-184 | Without effect when the listing fails; otherwise sends the issues in order until the broker refuses one, which raises, or else tries every lost chain and reports both numbers. Undisturbed, the lost chains are those of the running rows with a session whose lease is absent or past, each once; when the broker takes everything, polls_rearmed is their number, each row is leased for two minutes with its poll queued, and every listed issue is queued. |
| `Workers.World.HandlePrClosed` | app/webhooks.py:109-139 | Looks at the linked issues in order, detaches exactly those it reaches that GitHub answers for as open and labelled, enqueues a forced retry for each detached one, puts the association back and stops when that raises, and reports exactly the retries enqueued. Undisturbed, each linked row ends without its pull request if it was reported and with it if not, whatever the broker does, and for each reported issue a forced retry with GitHub's title and URL is queued; when the broker takes everything, the open and labelled linked issues are reported, all and only, in ascending order. |
| `WorkLog.DetachStands` | app/webhooks.py:123-131 | In the log of the handler a detach stands for exactly the linked issues reached that are open and carry the label, each with GitHub's title and URL. |
| `WorkLog.ReportedExactly` | app/webhooks.py:123-139 | If each of these was detached and every publish was taken, they are what is reported, in ascending order. |
| `WorkLog.SessionExactly` | app/remediation.py:126-134 | A creation counts exactly if it is answered with a session id that is not empty; its URL is optional. |
| `Workers.World.HandlePrOpened` | app/webhooks.py:103-108 | Looks at the referenced issues in ascending order, saves each tracked one as completed by the pull request, and reports exactly those; none known beforehand is missed. Undisturbed, it reports the referenced issues with a row, leaves those completed by the pull request and every other row alone. |
| `Workers.World.HandlePullRequest` | app/webhooks.py:98-141 | Opened, reopened or ready and open: as an opened pull request; closed unmerged with a URL: as a closed one; any other delivery has no effect. |
| `Workers.World.HandleIssueEdited` | app/webhooks.py:91-93 | Updates exactly a tracked issue, by one save, with the fields present in the payload. |
| `HttpRetry.Request` | app/http_client.py:90-160 | Sends between one and max(1, max_attempts) attempts, stops at the first that may not be repeated, which depends on the method whatever its letter case, answers with the last, counts one retry per repetition and sleeps the stated delay before each. |
| `HttpRetry.BackoffSeconds` | app/http_client.py:83-87 | The jittered delay lies between zero and the cap. |
| `HttpRetry.Delay` | app/http_client.py:147-149 | The delay that honours Retry-After lies between zero and the cap too. |
| `HttpRetry.DelayExactly` | app/http_client.py:65-87 | It is what the server asked for, cut to zero and the cap, or else the jitter's share of the base doubled once per attempt before, or of the cap if that is less. |
| `HttpRetry.Doubles` | app/http_client.py:87 | The doubling is that of powers of two. |
| `HttpRetry.IdempotentExactly` | app/http_client.py:31 | Without a word of the caller exactly GET, HEAD, OPTIONS, PUT and DELETE, in any letter case, may be repeated. |
| `HttpRetry.RetryableExactly` | app/http_client.py:139-141 | Always repeated is a 429; a transport error, 500, 502, 503 or 504 exactly if the call is idempotent; nothing else. |
| `HttpRetry.AppliedExactly` | app/http_client.py:11-18 | The attempts the server may have acted on are those that met anything but a 429. |
| `HttpRetry.AtMostOnce` | app/http_client.py:139-144 | Of all attempts of a call that is not idempotent, the server can have acted on the last only. |
| `HttpRetry.AtMostOnceExactly` | app/http_client.py:11-18 | Whatever the attempts meet, the server acts at most once if and only if the call is not idempotent or has one attempt. |
| `HttpRetry.TimeBounded` | app/http_client.py:115-159 | Attempts bounded by a and sleeps by the cap take at most attempts * a + (attempts - 1) * cap. |
| `HttpRetry.CreationFitsLease` | app/remediation.py:31-34 | With the default settings that is 340 seconds, inside the creation lease. |
| `HttpRetry.PostSession` | app/devin.py:60-68 | The POST that creates a session, run through the retry loop: applied at most once and over within 340 seconds, whatever it meets. |
| `Markdown.CodeSpanRoundTrip` | app/discovery/base.py:22-29 | A reader of code spans gets the normalised text and what follows it back, if and only if that text is not empty. |
| `Markdown.LongestBounds` | app/discovery/base.py:28 | No stretch of backticks in the text is longer than the longest run found. |
| `Markdown.NormalisedTrim` | app/discovery/base.py:25 | The normalised text has no white space at its ends and none but blanks inside, and is empty only for blank input. |
| `Whitespace.NormalisedExactly` | app/discovery/base.py:25 | It is the one text without white space at its ends, without two blanks in a row and without other white space that has the same visible characters as the input, with a blank between two of them exactly where the input has white space. |
| `Whitespace.NormalisedDense` | app/discovery/base.py:25 | Without its blanks it is the input without its white space. |
| `Whitespace.NormalisedFixed` | app/discovery/base.py:25 | Trimmed text with single blanks is left alone. |
| `Whitespace.SpaceExactly` | app/discovery/base.py:25 | White space is what Python takes for it, code point by code point. |
| `FencedBlock.ShownExactly` | app/discovery/base.py:33 | The text shown is the snippet without the white space at its end, up to the limit. |
| `FencedBlock.FenceExactly` | app/discovery/base.py:34 | The fence has at least three backticks, more than stand in a row in the text, and no more than that needs. |
| `FencedBlock.FencedRoundTrip` | app/discovery/base.py:32-35 | A reader of fenced blocks gets exactly the shown text and its line ending back and stops at the emitted fence, for every text. |
| `FencedBlock.TextDoesNotClose` | app/discovery/base.py:34 | No line of the shown text is a closing fence. |
| `Prose.PlainExactly` | app/discovery/base.py:41 | What is defused is the message without the white space at its ends, up to the limit. |
| `Prose.MentionsDefused` | app/discovery/base.py:38-41 | In the printed prose every at sign before a word character has a word character or a backtick before it, for any notion of word character. |
| `Mentions.MentionsLeft` | app/discovery/base.py:19-41 | Read block by block, it mentions someone in a paragraph outside its code spans if and only if the text has there an at sign with a word character after it right behind a backtick. |
| `Mentions.TickHidesMention` | app/discovery/base.py:19 | A backtick and a name, with no closing backtick, is such a text. |
| `Mentions.NextParagraphIsNoHelp` | app/discovery/base.py:19 | And so it is when a backtick follows behind a blank line. |
| `Mentions.FencedIsNoMention` | app/discovery/base.py:19 | Between fences it is not. |
| `Prose.DefuseOnlyInserts` | app/discovery/base.py:41 | Every character is printed in its place, exactly the defused at signs are followed by the inserted character, and nothing else is printed. |
| `Discovery.BuildIssueBody` | app/discovery/base.py:77-96 | Builds the body that the properties below are about. |
| `Discovery.FieldReadsBack` | app/discovery/base.py:79-84 | Rule, severity, location and reference stand on lines of their own in the body, and the code span of each reads back as the field if and only if it is not blank. |
| `Discovery.FieldsReadBack` | app/discovery/base.py:77-85 | They make up the first paragraph of the body, and its reader gets exactly these fields, in order, if and only if none is blank. |
| `Discovery.FieldsSpelled` | app/discovery/base.py:78-84 | The fields are rule, severity, path and line, and the help URI if it is a web address, each behind its caption. |
| `Discovery.BodyExactly` | app/discovery/base.py:77-96 | Below them stand the message, cut and defused, under its heading, the snippet as a block under its own if there is one, and the foot with the marker. |
| `Discovery.FootExactly` | app/discovery/base.py:88-96 | The body ends with the rule, the note on its source and the marker of its fingerprint, spelled out. |
| `Discovery.TitleExactly` | app/discovery/base.py:68-71 | The title is the first 200 characters of source, rule and place with white space normalised. |
| `Discovery.SnippetReadsBack` | app/discovery/base.py:85-87 | The snippet in the body reads back from its fence to its fence, and a reader who knows fenced blocks and no others comes to it outside every other one if and only if the printed message leaves none open. |
| `Discovery.TildesStayOpen` | app/discovery/base.py:85 | A message of three tildes leaves one open. |
| `Discovery.MarkerIdentifies` | app/discovery/base.py:73-75 | The body of a finding contains its own marker, and that of another plain fingerprint if and only if some text of the finding quotes it. |
| `Discovery.MessageQuotes` | app/discovery/base.py:38-41 | A message that is such a marker is printed whole, so it quotes it. |
| `References.ScannerExact` | app/webhooks.py:60-62 | The scanner returns exactly the numbers matched at some position. |
| `References.ParsePrint` | app/webhooks.py:62 | Parsing a printed number gives the number. |
| `References.PrintParse` | app/github.py:80 | Printing a parsed number without leading zeros gives its digits. |
| `References.ClosingLineFound` | app/devin.py:31 | The line Closes #n is picked up for every n, whatever surrounds it. |
| `References.ReferenceIsMentioned` | app/github.py:80-89 | Every reference without leading zeros also passes the substring test, in the title or in the body. |
| `References.MentionExact` | app/webhooks.py:32 | In any surroundings a mention of #n is a reference to n if and only if no letter, digit or slash stands before it and no word character follows its number. |
| `References.SurroundingsExact` | app/webhooks.py:32 | The same in characters: none of 0-9, A-Z, a-z and the slash before, none of 0-9, A-Z, a-z and the underscore behind, save further zeros after a zero. |
| `References.MentionsExactly` | app/github.py:80-89 | The substring test is true exactly if the mention stands somewhere in the title or in the body. |
| `References.ReferencesExact` | app/webhooks.py:60-62 | In a pull request that writes numbers without leading zeros, an issue is referred to if and only if one of its mentions stands so. |
| `References.MentionIsNotReference` | app/github.py:88 | The substring test is strictly weaker: #120 mentions issue 12. |
| `GitHub.GetLabeledIssues` | app/github.py:33-49 | Returns exactly the issues of the listing that are no pull requests, in order, in floor(n/100)+1 requests. |
| `GitHub.IssuesExactly` | app/github.py:45-46 | Each item that is no pull request stands in the result behind as many others as there are such items before it, and nothing else does. |
| `GitHub.FilesExactly` | app/github.py:150-154 | An item files a fingerprint if it is no pull request and its body contains the marker, spelled out. |
| `GitHub.FindIssuesByFingerprint` | app/github.py:123-156 | Maps each wanted fingerprint to the last issue that files it and to nothing else, in floor(n/100)+1 requests, or none when nothing is wanted. |
| `GitHub.FindExistingPr` | app/github.py:52-91 | The first open cross-reference, else the first listed pull request that mentions the number; None exactly when there is neither. |
| `GitHub.ReferencedPrIsFound` | app/github.py:85-89 | A listed pull request whose opening would complete an issue also keeps the search from coming back empty. |
| `Ingest.IngestFindings` | app/discovery/ingest.py:18-57 | Files the new findings among those looked at, in order, with title and body under consecutive numbers, counts the others, and leaves the tracker alone on a dry run. Without a cap, which a zero in the environment means, it looks at all; with one it files no more, and stops early only at a new finding with the cap reached. |
| `Ingest.SeenTellsNew` | app/discovery/ingest.py:38 | The test of the loop is true exactly of the first finding with a fingerprint not filed before. |
| `Backlog.FilesFirst` | app/discovery/ingest.py:37-42 | A run files the first min(cap, available) new findings in input order. |
| `Backlog.DryRunAgrees` | app/discovery/ingest.py:44-46 | Two runs that find the same findings filed look equally far and take the same findings. |
| `Backlog.PreviewThenFile` | app/discovery/ingest.py:22-57 | A dry run followed by the real one: both report the same findings and skip the same number, and only the real one files. |
| `Backlog.FreshDistinct` | app/discovery/ingest.py:36-43 | New findings have distinct fingerprints. |
| `Backlog.FreshCovers` | app/discovery/ingest.py:36-43 | Every fingerprint not filed before is among them. |
| `Backlog.BodiesIdentify` | app/discovery/base.py:94 | Printed bodies tell plain fingerprints apart if and only if no finding quotes the marker of another. |
| `Backlog.QuotedNeverFiled` | app/discovery/ingest.py:33-57 | If one finding quotes the marker of another, runs over the two, one issue at a time, never file the quoted one. |
| `Backlog.RunLeaves` | app/discovery/ingest.py:33-57 | A run that files the first m remaining findings leaves exactly the others, through print and lookup. |
| `Backlog.RunIsAfterRun` | app/discovery/ingest.py:22-57 | What the filing method leaves in the tracker, listing and next number, is the run these laws are about. |
| `Backlog.RunsDrain` | app/discovery/ingest.py:25-28 | After r runs capped at k the tracker holds the first min(r*k, d) of d findings, each filed once and in order, and the others remain. |
| `Backlog.BacklogDrains` | app/discovery/ingest.py:25-28 | The backlog is empty after ceil(d/k) runs and not before. |
| `Backlog.IngestRepeatedly` | app/discovery/ingest.py:22-57 | Calls of the filing method one after the other leave the tracker that these laws are about. |
| `Backlog.DrainBacklog` | app/discovery/ingest.py:25-28 | When no finding quotes another's marker those calls file the first min(r*k, d), each once and in order, and leave nothing if and only if there were ceil(d/k) of them. |

## Left out

- Redelivery of an accepted message. `task_acks_late` allows it; the model assumes at most one delivery, and a poll delivered twice while its token is live would put two activities on one token.
- Concurrent transactions inside one store call. `upsert` reads and writes in one transaction, which the model takes as one step.
- Discovery.MarkerIdentifies: does not cover fingerprints of a report that contain a blank or an opening bracket, which can look like part of a marker themselves.
- A `create_issue` that raises halfway through a filing run.
- The JSON of deliveries and answers; the parsed fields are parameters.
- Text that is not ASCII in issue references and method names, where the character classes and `upper` of Python are wider.
- Of CommonMark, everything but code spans, fenced and indented code, and paragraphs: backslash escapes, headings, HTML, lists and quotes in a message are not read.
- `sha256` fingerprints, HMAC signatures, HTTP dates in Retry-After, float rounding, and environment parsing.
- `clear`, which no application code calls; `devin.map_devin_status`, comments, labels and webhook registration, which would only add easy members.
- `_handle_issues` for labelled issues and manual triggers appear only as messages any step may enqueue; `enqueue_scan` is not part of this model.
- Logging, metrics, tracing, routing, the dashboard, migrations, deployment and `app/discovery/semgrep.py`.
