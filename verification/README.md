# Verification of the account, task and invitation machinery

A Dafny model of the parts of the system whose correctness depends on several pieces of code at
once, with proofs of what holds over every run. `dafny verify dfyconfig.toml` checks it.

| module | models |
|---|---|
| AccountLock | the in-memory registry of leases on Telegram accounts, as classes, and the laws of its runs |
| RedisLock | the Redis registry, as classes over an expiring map, and its simulation of the first |
| Handlers | all workers' handlers interleaved over one registry and one clock |
| HandlerLaws | the laws of those runs, with and without a promise about time |
| HandlerTraces | the statuses of one account over a whole run |
| HandlerLimits | which time limits a handler's lease can do with |
| RedisHandlers | the same handlers over Redis |
| HandlerAnswers | what Telegram's answers make the handlers write and return |
| HandlerMethods | the handlers as they are written: acquire, timer, operation, release |
| TaskQueue | the task routes, the command queue, PROCESS_TASK and the task record, together |
| Invitations | invitation task creation, the invitation run, and runs with imports in between |
| InvitationImport | the spreadsheet parser from the cell matrix on, and the stored counters |
| InvitationHeaders | which header cells stand for which columns |
| RateLimiter | the fixed-window limit on API requests |
| Pagination | cursor paging of messages and contacts |
| Sessions | login, refresh, logout and password reset over stored sessions |
| SessionLife | how long access, refresh and reset tokens work |
| ProxyManager | proxy lines and their bulk import |
| ProxyImport | what a bulk import does, in terms of the lines of the text |
| Text, Common | trimming, case and search on strings; `Option` |

Objects that the program changes in place are classes whose methods are proved against functions on
their state; the laws are lemmas about those functions and about the step systems built from them.

What the model assumes of the world:

- Clocks never go back. Tokens, UUIDs and session ids are new when they are generated, a hash keeps
  tokens apart, and a signature vouches for what was signed.
- A Redis key is gone from the moment it expires, and a script is one step. The two registries are
  compared on schedules with valid arguments and one clock reading for each call.
- About the time operations take, nothing, except where a member asks for the timing promise: a
  lifecycle renewal reaches the registry at most `jitter` ms late, with at most `tolerated` ticks in a
  row lost, and a handler without a timer ends its operation within its time limit. `Tolerates` is the
  exact condition on the time limit under that promise.
- An HTTP request is one step; a worker's status writes are separate steps and may fail. The queue
  delivers each job once.
- In an invitation run the database writes succeed, and Telegram's answer is a function of the
  account and the user. Runs of one task do not overlap.
- Text is ASCII. Of JavaScript's `Number` only this is used: the decimal print of a port reads back.

Where the code and what is said about it differ, the model follows the code:

- README.md:90 of the repository calls FLOOD_WAIT, PEER_FLOOD and privacy restrictions stop
  conditions. The run stops at FLOOD_WAIT alone (`OnlyFloodWaitStops`, `PeerFloodDoesNotStop`), and it
  stops one account's pass, not the run: `AtMostOnceIffOneAccount` says what that rests on.
- The two registries are meant to be interchangeable. They are, but for the answer to releasing an
  expired lease that nobody has claimed (`RegistriesAgree`), which no handler looks at.
- Cancelling a task does not withdraw its command: `CancelledIsFinalIffIdle`, `CancelledYetRun`.
- Paging by id a list sorted by time is exact, for a given limit, only where the two orders agree at
  every page boundary: `PagesAddUpIffBoundariesCut`, `OutOfOrderMessageIsLost`.
- A `host:port:user:pass` line with an `@` in its last parts may be read as another format or
  refused: `FourPartRoundTrip` has the exact condition, `MisreadExample` and `RefusedExample` are two
  such lines.

## Model

| member | source | states |
|---|---|---|
| AccountLock.InMemoryAccountLockRegistry.constructor | apps/telegram-worker/src/workers/account-lock.ts:20-21 | A new registry holds no lock. |
| AccountLock.InMemoryAccountLockRegistry.Acquire | apps/telegram-worker/src/workers/account-lock.ts:22-32 | Bad arguments throw, an account with an unexpired record gives nothing and changes nothing, otherwise the record is written (over an expired one too) with a fresh lease. |
| AccountLock.Lease.Renew | apps/telegram-worker/src/workers/account-lock.ts:33-38 | Renewing needs the lease's own unexpired record and then moves its expiry from the second clock reading; otherwise false and nothing changes. |
| AccountLock.Lease.Release | apps/telegram-worker/src/workers/account-lock.ts:39-45 | Releasing needs the lease's own record, expired or not, and removes it once; otherwise false and nothing changes. |
| AccountLock.RunConsistent | apps/telegram-worker/src/workers/account-lock.ts:20-46 | Over every sequence of calls, each stored record belongs to a granted, unreleased lease on that account and worker, and a lease's identity never changes. |
| AccountLock.AtMostOneLive | apps/telegram-worker/src/workers/account-lock.ts:26-28 | In every reachable state at most one lease is valid on an account. |
| AccountLock.NoRevival | apps/telegram-worker/src/workers/account-lock.ts:33-45 | A lease that has expired, been released or been superseded is never valid again, whatever is called afterwards. |
| AccountLock.SupersededForever | apps/telegram-worker/src/workers/account-lock.ts:27-28 | A token whose record is gone is never stored again. |
| AccountLock.SupersededIsInert | apps/telegram-worker/src/workers/account-lock.ts:33-45 | At any later time, renew and release of a superseded lease answer false and change no lock. |
| AccountLock.OnlyTimeOrReleaseEnds | apps/telegram-worker/src/workers/account-lock.ts:26-43 | No call but its own release takes a valid lease's record or shortens its expiry, and an acquire of its account fails. |
| RedisLock.RedisServer.SetPxNx | apps/telegram-worker/src/workers/redis-account-lock.ts:10 | SET PX NX on keys that are gone from the moment of expiry. |
| RedisLock.RedisServer.EvalRenew | apps/telegram-worker/src/workers/redis-account-lock.ts:5 | The renew script as one compare-and-expire step. |
| RedisLock.RedisServer.EvalRelease | apps/telegram-worker/src/workers/redis-account-lock.ts:6 | The release script as one compare-and-delete step. |
| RedisLock.RedisAccountLockRegistry.Acquire | apps/telegram-worker/src/workers/redis-account-lock.ts:10 | The key holds `worker:uuid` with the time limit exactly if no unexpired value was there. |
| RedisLock.RedisLease.Renew | apps/telegram-worker/src/workers/redis-account-lock.ts:10 | Extends exactly the unexpired key holding this lease's value, and not after a release attempt. |
| RedisLock.RedisLease.Release | apps/telegram-worker/src/workers/redis-account-lock.ts:10 | Deletes exactly the unexpired key holding this lease's value; the flag is set even when that fails. |
| RedisLock.SimilarAnswers | apps/telegram-worker/src/workers/redis-account-lock.ts:5-10 | In corresponding states the registries answer a call differently exactly if it releases an expired, unclaimed lease. |
| RedisLock.SimilarSteps | apps/telegram-worker/src/workers/redis-account-lock.ts:5-10 | Every call keeps the two registries in corresponding states, the deviating release included. |
| RedisLock.RegistriesAgree | apps/telegram-worker/src/workers/redis-account-lock.ts:10 | Over every schedule, the i-th answers differ exactly when call i releases a lease that has expired and not been claimed since; all later answers agree, so the differing `released` flags are not observable. |
| RedisLock.FreshRegistriesAgree | apps/telegram-worker/src/workers/redis-account-lock.ts:10 | From two empty registries every acquire and renew of every schedule gets the same answer. |
| RedisLock.LiveIffStored | apps/telegram-worker/src/workers/redis-account-lock.ts:10 | A lease is valid in the in-memory registry exactly when its value is stored in Redis. |
| RedisLock.ReleaseAfterExpiryDiffers | apps/telegram-worker/src/workers/redis-account-lock.ts:6 | The one difference occurs: a lease of 1 ms released 1 ms later answers true in memory and false in Redis. |
| Handlers.StepKeepsLeases | apps/telegram-worker/src/workers/account-lifecycle.ts:10-18 | Under the timing promise every step of any handler keeps: each running operation's record is stored, with its deadline still ahead. |
| Handlers.RunSound | apps/telegram-worker/src/workers/account-lifecycle.ts:10-31 | Whatever the timing, after every run of any number of workers: operations have their own tokens, ended ones' records are gone, statuses belong to lease holders and fit where their operation stands. |
| Handlers.RunKeepsInv | apps/telegram-worker/src/workers/account-lifecycle.ts:10-31 | Under the timing promise, in addition: running operations' leases are valid and writes to an account come in turns. |
| HandlerLaws.MutualExclusion | apps/telegram-worker/src/workers/account-lifecycle.ts:10-18 | If renewals keep the timing promise and other operations end within their limit, two operations on one account never overlap and a running one owns the account. |
| HandlerLaws.NoTokenLeftBehind | apps/telegram-worker/src/workers/account-lifecycle.ts:17 | Once a handler has returned or thrown and released, no lock carries its token, even if its lease expired or its account was taken while it ran. |
| HandlerLaws.ReleaseSparesOthers | apps/telegram-worker/src/workers/account-lifecycle.ts:17 | A handler's final release never takes or changes a valid lease of somebody else, whatever happened to its own. |
| HandlerLaws.DeferredDoesNothing | apps/telegram-worker/src/workers/account-lifecycle.ts:14 | A handler that did not get the lock never runs its operation and writes no status, in any continuation, whatever the timing. |
| HandlerLaws.RefusedStart | apps/telegram-worker/src/workers/dialogs.ts:14-15 | A start is deferred exactly when the account is locked, and changes nothing else. |
| HandlerLaws.EachTraceIsBlock | apps/telegram-worker/src/workers/account-lifecycle.ts:22-30 | Whatever the timing, an operation that is over has written a block of its kind and outcome; without failed writes one of [CONNECTING], [CONNECTING, ONLINE], [CONNECTING, TELEGRAM_ERROR], [OFFLINE], [TELEGRAM_ERROR]. |
| HandlerTraces.TraceLanguage | apps/telegram-worker/src/workers/account-lifecycle.ts:22-30 | Under the timing promise the statuses written to an account are a concatenation of such blocks, one for each operation that wrote; the last may be the [CONNECTING] of one still running. |
| Handlers.WriteFits | apps/telegram-worker/src/workers/account-lifecycle.ts:23-29 | One status write, or its failure, leads from an admissible trace to an admissible trace. |
| Handlers.GatewayFits | apps/telegram-worker/src/workers/account-lifecycle.ts:24-28 | One answer of the gateway does so too. |
| HandlerAnswers.AnswerDecides | apps/telegram-worker/src/workers/account-lifecycle.ts:22-30 | In every run, whatever the timing, Telegram's answer and the writes decide: CODE_SENT leaves [CONNECTING] and returns, a connection [CONNECTING, ONLINE] and returns, a throw [CONNECTING, TELEGRAM_ERROR] and throws; a disconnect that does not throw [OFFLINE]; failed writes as tabled. |
| HandlerAnswers.StatusesHaveCauses | apps/telegram-worker/src/workers/account-lifecycle.ts:24-29 | ONLINE is written only after Telegram said it is connected, OFFLINE only after a disconnect that did not throw, TELEGRAM_ERROR only after a throw or a failed write. |
| HandlerLimits.ToleranceTable | apps/telegram-worker/src/workers/account-lifecycle.ts:16 | With the interval max(1000, floor(ttl/3)): punctual renewals suffice iff ttl > 1000; single lost ones iff ttl > 2000; two in a row iff ttl > 3000 and ttl is no multiple of 3; three never. |
| HandlerLimits.TolerationIsNecessary | apps/telegram-worker/src/workers/account-lifecycle.ts:16-17 | The condition on the time limit is exact: for any other one, a run that keeps the timing promise has two operations running on one account. |
| HandlerLimits.PlainLimitIsNecessary | apps/telegram-worker/src/workers/messages.ts:8 | So is the limit of a handler without a timer: a second start overlaps with it if and only if it has reached its limit. |
| RedisHandlers.SameRuns | apps/telegram-worker/src/workers/redis-account-lock.ts:7-12 | Over Redis the handlers have the same runs as over the in-memory registry, with the same operations and the same statuses written. |
| RedisHandlers.MutualExclusionOverRedis | apps/telegram-worker/src/workers/redis-account-lock.ts:10 | Hence, under the timing promise, two operations on one account never overlap over Redis, and a running operation's key holds its token. |
| RedisHandlers.NoTokenLeftInRedis | apps/telegram-worker/src/workers/account-lifecycle.ts:17 | Whatever the timing, no key holds the token of a handler that has returned or thrown and released. |
| RedisHandlers.ReleaseSparesOthersInRedis | apps/telegram-worker/src/workers/redis-account-lock.ts:6 | A handler's final release leaves every key that holds another token as it is. |
| RedisHandlers.DeferredDoesNothingOverRedis | apps/telegram-worker/src/workers/account-lifecycle.ts:14 | A handler that Redis refused the lock does nothing in any continuation. |
| HandlerMethods.WholeIsBlock | apps/telegram-worker/src/workers/account-lifecycle.ts:22-30 | An operation played to its end leaves one of the status blocks allowed for its kind and outcome. |
| HandlerMethods.ConnectTable | apps/telegram-worker/src/workers/account-lifecycle.ts:22-26 | The same table for one CONNECT_ACCOUNT, for every combination of answers. |
| HandlerMethods.DisconnectTable | apps/telegram-worker/src/workers/account-lifecycle.ts:27-30 | And for one DISCONNECT_ACCOUNT. |
| HandlerMethods.BlocksAreExact | apps/telegram-worker/src/workers/account-lifecycle.ts:22-30 | Those blocks are exactly the possible ones, failed writes included: each is left by some operation of that kind and outcome. |
| HandlerMethods.RenewedExpiry | apps/telegram-worker/src/workers/account-lifecycle.ts:16 | A timer whose every tick finds the lease unexpired carries it to one time limit past the last tick, however many ticks there are. |
| HandlerMethods.FireTimer | apps/telegram-worker/src/workers/account-lifecycle.ts:16 | The timer's renewals, one after another. |
| HandlerMethods.Connect | apps/telegram-worker/src/workers/account-lifecycle.ts:22-26 | CONNECT_ACCOUNT writes, under its lease, the statuses and has the outcome of its phases, for every combination of answers. |
| HandlerMethods.Disconnect | apps/telegram-worker/src/workers/account-lifecycle.ts:27-30 | DISCONNECT_ACCOUNT likewise. |
| HandlerMethods.WithAccountLock | apps/telegram-worker/src/workers/account-lifecycle.ts:10-18 | Granted: renewed while held and released in every case; held by another: deferred, nothing written; bad arguments: thrown. |
| HandlerMethods.WithLock | apps/telegram-worker/src/workers/messages.ts:8 | The gateway is called exactly if the lease was granted and the payload is right; the lock table ends without the account. |
| HandlerMethods.LoadUnderLease | apps/telegram-worker/src/workers/contacts.ts:6 | Dialogs and contacts: an unconfigured gateway throws before the lock is touched; otherwise as above. |
| TaskQueue.TaskRecord.SetStatus | apps/telegram-worker/src/workers/prisma-task-runtime.ts:3 | Which columns a status write changes, and that a failed one changes none. |
| TaskQueue.InMemoryCommandQueue.Enqueue | apps/backend/src/queues/in-memory-command-queue.ts:18-29 | A command is accepted exactly if its envelope is well formed (id, type, attempt, date) and its id new since the last clear, and then goes to the end. |
| TaskQueue.InMemoryCommandQueue.Dequeue | apps/backend/src/queues/in-memory-command-queue.ts:31-33 | First in, first out; a delivered command was never delivered before. |
| TaskQueue.InMemoryCommandQueue.Clear | apps/backend/src/queues/in-memory-command-queue.ts:39-42 | Nothing is pending and every id is free again. |
| TaskQueue.TaskApi.Act | apps/backend/src/api/controller.ts:87 | The answers of the queue and cancel routes, what they write and what they enqueue. |
| TaskQueue.ProcessTask | apps/telegram-worker/src/workers/tasks.ts:9 | RUNNING, then COMPLETED or FAILED; a failing COMPLETED write becomes FAILED, a failing RUNNING write leaves the record alone. |
| TaskQueue.StepKeepsInv | apps/backend/src/api/controller.ts:87 | Every request and every worker step keeps the invariant of tasks, queue and workers. |
| TaskQueue.SettledIsIdle | apps/backend/src/api/controller.ts:87 | DRAFT, FAILED and COMPLETED tasks have no outstanding command. |
| TaskQueue.RequestCounts | apps/backend/src/api/controller.ts:87 | A queue request counts exactly if it finds its task DRAFT, PAUSED or FAILED, and then sets QUEUED, clears the error and appends one PROCESS_TASK command. |
| TaskQueue.CanBeTried | apps/backend/src/api/controller.ts:87 | In every reachable state a DRAFT or FAILED task can be queued with one outstanding command, and some continuation ends with whatever the executor is to answer on its record: a failed task can be retried until it succeeds. |
| TaskQueue.TaskProduct | apps/telegram-worker/src/workers/tasks.ts:9 | Over every run: at most one outstanding command for each task; none if DRAFT, FAILED or COMPLETED; a RUNNING one is at work exactly unless its FAILED write failed; accepted requests = outstanding + finished + lost; error, startedAt and completedAt agree with the status. |
| TaskQueue.ExecutorRunsOnce | apps/telegram-worker/src/workers/tasks.ts:9 | The executor never runs twice at once for a task. |
| TaskQueue.RunBalanced | apps/backend/src/queues/in-memory-command-queue.ts:18-33 | No accepted command is lost track of or counted twice, for all tasks together. |
| TaskQueue.CountersSay | apps/telegram-worker/src/workers/tasks.ts:9 | `finished` counts the final statuses written over a run, `lost` the deferrals and the jobs ended by a failing RUNNING or FAILED write. |
| TaskQueue.CommandReports | apps/telegram-worker/src/workers/tasks.ts:9 | A queued command can be run with any answer of its executor: COMPLETED with the result as progress and no error, or FAILED with the error's name. |
| TaskQueue.CancelledForGood | apps/backend/src/api/controller.ts:87 | A cancelled task without an outstanding command stays cancelled in every continuation. |
| TaskQueue.CommandCanEnd | apps/telegram-worker/src/workers/tasks.ts:9 | From every reachable state a queued command can be run to COMPLETED or FAILED, cancelled or not. |
| TaskQueue.CancelledIsFinalIffIdle | apps/backend/src/api/controller.ts:87 | Cancelling does not withdraw a command: a cancelled task can leave CANCELLED exactly if a command of it is outstanding. |
| TaskQueue.CancelledWithCommand | apps/backend/src/api/controller.ts:87 | Such a task is reached: created, queued and cancelled, it is CANCELLED with its command outstanding. |
| TaskQueue.CancelledYetRun | apps/backend/src/api/controller.ts:87 | And from there it ends COMPLETED or FAILED in some continuation. |
| Invitations.CreateInvitationTask | apps/backend/src/api/controller.ts:89 | The route accepts exactly lists whose accounts are the user's and the target chat's own, and stores them under the unique constraint (prisma/schema.prisma:498). |
| Invitations.CreatedHasOneAccount | prisma/schema.prisma:498 | So a created task has exactly one account. |
| Invitations.ClassifyByMarks | apps/telegram-worker/src/workers/invitations.ts:25-32 | Which status each error text gets, by five marks in order of priority; the two longer marks the code looks for add nothing. |
| Invitations.InvitationDb.InvitePending | apps/telegram-worker/src/workers/invitations.ts:46-56 | The inner loop equals one pass: statuses, counters, order of attempts, end at FLOOD_WAIT. |
| Invitations.InvitationDb.ProcessInvitations | apps/telegram-worker/src/workers/invitations.ts:42-61 | The whole run equals a pass by each account that gets its lock; the task ends FAILED iff something failed. |
| Invitations.ReachStopsAtFlood | apps/telegram-worker/src/workers/invitations.ts:54 | A pass goes to the end of the list or to the first FLOOD_WAIT, included, and no other answer ends it. |
| Invitations.OnlyFloodWaitStops | apps/telegram-worker/src/workers/invitations.ts:54 | Behind an attempted user the next one is attempted exactly unless the answer was an error whose text contains FLOOD_WAIT. |
| Invitations.PeerFloodDoesNotStop | apps/telegram-worker/src/workers/invitations.ts:25-32 | So PEER_FLOOD is classified FAILED and the next user is attempted. |
| Invitations.PassEffect | apps/telegram-worker/src/workers/invitations.ts:46-56 | A pass in closed form: who is attempted, the status of every row, the counters. |
| Invitations.AttemptedUsers | apps/telegram-worker/src/workers/invitations.ts:46-56 | A run of an API task attempts a prefix of the PENDING users, each once, up to and including the first FLOOD_WAIT; nobody without the lock. |
| Invitations.PendingKeepsOrder | apps/telegram-worker/src/workers/invitations.ts:46 | Users are attempted in the order of the snapshot. |
| Invitations.RunEndToEnd | apps/telegram-worker/src/workers/invitations.ts:42-61 | A run of a task as the API creates it: each attempted row gets its final status, all others keep theirs, processed + failed is the number of attempts. |
| Invitations.RowsSayAnswers | apps/telegram-worker/src/workers/invitations.ts:51-55 | A user attempted is INVITED exactly if the call returned, and otherwise has the status the five marks of the error's text call for; `processed` is the number of those INVITED, `failed` of the others. |
| Invitations.EveryGrantedAccountAttempts | apps/telegram-worker/src/workers/invitations.ts:43-46 | FLOOD_WAIT ends one account's pass only: every account that gets its lock attempts the first PENDING user. |
| Invitations.AtMostOnceIffOneAccount | apps/telegram-worker/src/workers/invitations.ts:43-59 | With somebody PENDING, a run attempts each user at most once exactly if at most one account gets its lock. |
| Invitations.RunStep | apps/telegram-worker/src/workers/invitations.ts:38-61 | A run changes no terminal status, leaves none PROCESSING, and with the lock and somebody PENDING makes the PENDING set smaller. |
| Invitations.AttemptedOnceForever | apps/telegram-worker/src/workers/invitations.ts:38-61 | Over any sequence of non-overlapping runs and imports each row is attempted at most once in total and a terminal status never changes. |
| Invitations.CreatedIsSettled | apps/backend/src/api/controller.ts:89 | A task as the API creates it is where such sequences may start. |
| Invitations.EveryoneIsReached | apps/telegram-worker/src/workers/invitations.ts:38-61 | Without imports, as many runs with the lock as there are PENDING rows leave nobody PENDING. |
| InvitationImport.UsernameIs | apps/backend/src/api/invitation-import.ts:9 | A cell has a name exactly if its trimmed text is some `@` and then the name in any case, of 5 to 32 characters of a-z, 0-9 and `_`. |
| InvitationImport.CleanIs | apps/backend/src/api/invitation-import.ts:7 | What a cell comes to: the piece of its text, or of its number's print, between the blanks around it, if anything is left. |
| Text.TrimIs | apps/backend/src/api/invitation-import.ts:7 | Trimming finds the one piece of a text that has no blank ends and only blanks around it. |
| InvitationHeaders.HeaderIs | apps/backend/src/api/invitation-import.ts:8 | A header is the cell's trimmed text in lower case with every gap of blanks between its words one underscore, told by the words and gaps themselves. |
| InvitationHeaders.ColumnsInCapitals | apps/backend/src/api/invitation-import.ts:8 | Every column may be headed in capitals. |
| InvitationHeaders.RefusedWithoutUsername | apps/backend/src/api/invitation-import.ts:18-20 | A sheet is refused exactly if no cell of its first row is "username", in any case and with any blanks around it. |
| InvitationImport.GatherRows | apps/backend/src/api/invitation-import.ts:21-34 | The loop's rows and issues are those of the row-by-row verdicts. |
| InvitationImport.ParseMatrix | apps/backend/src/api/invitation-import.ts:18-35 | The whole parser from the matrix on, with its three counters and the missing username column. |
| InvitationImport.RowsAreFirstOccurrences | apps/backend/src/api/invitation-import.ts:28-33 | Accepted rows are, in file order, exactly the first occurrences of the valid usernames. |
| InvitationImport.CountersAddUp | apps/backend/src/api/invitation-import.ts:35 | Every non-blank row has one verdict: the counters add up. |
| InvitationImport.IssueIff | apps/backend/src/api/invitation-import.ts:24-30 | Line i + 2 is reported with a reason exactly if that is what is wrong with data row i. |
| InvitationImport.CountersCount | apps/backend/src/api/invitation-import.ts:35 | The counters are the numbers of rows with something in them, of accepted rows, and of issues of each kind. |
| InvitationImport.ImportIsExact | apps/backend/src/api/invitation-import.ts:18-35 | All of it for any matrix: first occurrences, no repetition, no valid name missing, totals, issue lines increasing. |
| InvitationImport.ImportedRowsKept | apps/backend/src/api/invitation-import.ts:7-9 | Accepted values are fixed points of cleaning, accepted usernames of normalising. |
| InvitationImport.ImportRoundTrip | apps/backend/src/api/invitation-import.ts:18-35 | Writing the accepted rows as a sheet and parsing it gives the same rows, no issue. |
| InvitationImport.ImportStore.CreateTask | apps/backend/src/api/store.ts:242 | A new task has no users. |
| InvitationImport.ImportStore.CreateInvitationImport | apps/backend/src/api/store.ts:245 | Keeps: a task's `userCount` is the sum of `validRows` of its imports. |
| InvitationImport.ImportStore.ImportInto | apps/backend/src/api/controller.ts:90 | So does the import route; an unreadable sheet changes nothing. |
| RateLimiter.Limiter.Handle | apps/backend/src/index.ts:75-79 | The bucket map answers each request as the trace of all requests so far demands. |
| RateLimiter.BucketFromOwnTimes | apps/backend/src/index.ts:76-78 | A bucket depends on nothing but its address's own request times. |
| RateLimiter.AddressesAreIndependent | apps/backend/src/index.ts:76-79 | Other addresses' traffic never changes a verdict. |
| RateLimiter.CountIsBounded | apps/backend/src/index.ts:76-79 | The running count of admissions in any span is bounded by the windows begun in it. |
| RateLimiter.SpanBound | apps/backend/src/index.ts:76-79 | In any span of k * 60000 ms, both ends included, at most 300 (k + 1) requests of an address are admitted. |
| RateLimiter.RefusedOnlyWhenFull | apps/backend/src/index.ts:79 | A refusal means 300 admissions of that address within the preceding 60000 ms. |
| RateLimiter.SpanBoundIsAttained | apps/backend/src/index.ts:76-79 | The bound is attained, for every k. |
| Pagination.ClampLimit | apps/backend/src/api/controller.ts:80 | A positive limit is cut to 100, anything else is 50. |
| Pagination.NewestSorts | apps/backend/src/api/store.ts:228 | A listing is the cached items, newest first. |
| Pagination.NewestIsStable | apps/backend/src/api/store.ts:228 | Items of one moment keep the order of the table. |
| Pagination.BelowNewest | apps/backend/src/api/store.ts:228 | Filtering by cursor and sorting commute. |
| Pagination.FollowIsExact | apps/backend/src/api/controller.ts:80 | From behind any k items, following the cursor gives the rest of the listing. |
| Pagination.PagingIsExact | apps/backend/src/api/controller.ts:80 | If every page boundary cuts the listing by id, following the cursor returns each of the n items once, in order, in floor(n/limit)+1 requests, while newer ones arrive. |
| Pagination.NewerItemsLeaveOldPages | apps/backend/src/api/store.ts:228 | Newer items, in whatever order the table yields them, do not change an old page. |
| Pagination.MessagesPageExactly | apps/backend/src/api/store.ts:294 | Messages: a larger id always having a later time is enough for all that. |
| Pagination.ContactsPageExactly | apps/backend/src/api/store.ts:297 | Contacts of an account under the database ordering: distinct ids are enough. |
| Pagination.PagesAddUpIffBoundariesCut | apps/backend/src/api/controller.ts:80 | For each limit, on an unchanging cache, the pages add up to the listing iff at every page boundary all ids ahead are at least, and all ids behind smaller than, the id at the boundary. |
| Pagination.PagingExactIffIdsDescend | apps/backend/src/api/controller.ts:80 | For all limits from 1 to 100 together: iff ids descend along the listing. |
| Pagination.OutOfOrderMessageIsLost | apps/backend/src/api/store.ts:228 | Two messages whose times contradict their ids: with limit 1 one is never returned, with limit 50 both are. |
| Sessions.AuthServer.RevokeSessionsForUser | apps/backend/src/api/store.ts:196 | Exactly the user's unrevoked sessions are revoked. |
| Sessions.AuthServer.RotateRefresh | apps/backend/src/api/security.ts:36 | A refresh is a step of the session machine, with its five refusals. |
| Sessions.AuthServer.LoginUser | apps/backend/src/api/controller.ts:144 | A login is a step of it, lifting the invalidation and opening a session of one day. |
| Sessions.AuthServer.LogoutUser | apps/backend/src/api/controller.ts:146 | A logout likewise: sessions revoked, user invalidated. |
| Sessions.AuthServer.ApplyReset | apps/backend/src/api/controller.ts:149 | A password reset likewise: one use, password replaced, sessions revoked. |
| Sessions.RunInv | apps/backend/src/api/store.ts:193-197 | After any requests, sessions are stored under issued tokens of their own user, one for each token. |
| Sessions.SpentForever | apps/backend/src/api/security.ts:36 | A refresh token without an unrevoked session is refused in every continuation. |
| Sessions.RefreshAcceptedOnce | apps/backend/src/api/security.ts:36 | A refresh token is accepted at most once over every run. |
| Sessions.RotationKeepsCount | apps/backend/src/api/security.ts:36 | A successful rotation keeps every user's number of unrevoked sessions. |
| Sessions.EndedSessionsStayEnded | apps/backend/src/api/controller.ts:146-149 | Refresh tokens issued before a logout or password reset are refused forever after. |
| Sessions.AccessEndsAtLogout | apps/backend/src/api/security.ts:33-35 | Access tokens issued before a logout are refused until the user logs in again. |
| Sessions.LoginLiftsInvalidation | apps/backend/src/api/controller.ts:152 | From that login on they work again exactly until they expire. |
| SessionLife.LoginTokenLife | apps/backend/src/api/controller.ts:152 | The refresh token of a login is accepted in exactly those continuations in which it was not rotated and its user not logged out, reset or deleted, while less than 86400000 ms and less than the configured lifetime has passed. |
| SessionLife.RotatedTokenLife | apps/backend/src/api/security.ts:36 | That of a refresh likewise, within refreshTtl * 1000 ms. |
| SessionLife.DeletedUserSpends | apps/backend/src/api/security.ts:36 | A refresh for a deleted user is refused and still uses up the session. |
| SessionLife.LoginAccessLife | apps/backend/src/api/security.ts:33 | The access token of a login authenticates its user in exactly those continuations in which the user exists, has not logged out since the last login, and the configured lifetime has not passed. |
| SessionLife.RotatedAccessLife | apps/backend/src/api/security.ts:36 | That of a refresh likewise. |
| SessionLife.ResetTokenLife | apps/backend/src/api/controller.ts:148-149 | A reset token is accepted in exactly those continuations that have not used it, within resetTtl * 1000 ms. |
| SessionLife.ResetChangesPassword | apps/backend/src/api/controller.ts:149 | After a reset its user logs in with the new password and no other; everybody else as before. |
| SessionLife.NewUserLogsIn | apps/backend/src/api/controller.ts:143-144 | Registration is open only while there is no user; a new user logs in with its own credentials only. |
| SessionLife.EmailsStayDistinct | apps/backend/src/api/controller.ts:143 | No two users share an e-mail address in any reachable state. |
| ProxyManager.CredentialMatchIsExact | apps/backend/src/api/proxy-manager.ts:40 | The search by first colon and first `@` finds exactly the one match of the pattern, if there is one. |
| ProxyManager.BlanksAroundLine | apps/backend/src/api/proxy-manager.ts:37 | Blanks around a line do not matter. |
| ProxyManager.HostPortIs | apps/backend/src/api/proxy-manager.ts:49-56 | Exactly what is read as host and port: a last colon, a host of the pattern with or without blanks around it, a port from 1 to 65535; the credentials are passed on. |
| ProxyImport.HostCharIs | apps/backend/src/api/proxy-manager.ts:34 | The characters of a host. |
| ProxyManager.PlainRoundTrip | apps/backend/src/api/proxy-manager.ts:45 | `host:port` reads back as itself. |
| ProxyManager.LoginRoundTrip | apps/backend/src/api/proxy-manager.ts:40-41 | `user:pass@host:port` reads back as itself, colons in host and password included. |
| ProxyManager.FourPartMatch | apps/backend/src/api/proxy-manager.ts:40-44 | A four-part line is taken for a login line exactly when its last two parts contain an `@` with no blank before it and something behind it. |
| ProxyManager.FourPartRoundTrip | apps/backend/src/api/proxy-manager.ts:40-44 | `host:port:user:pass` reads back as itself exactly when it is not taken for a login line. |
| ProxyManager.FourPartMisread | apps/backend/src/api/proxy-manager.ts:40-44 | A family of misread lines: `host:port:user@host2:port2` gives the proxy host2:port2 with the host as its user. |
| ProxyManager.FourPartRefused | apps/backend/src/api/proxy-manager.ts:40-56 | A family of refused lines: an `@` in the password without a colon behind it. |
| ProxyManager.MisreadExample | apps/backend/src/api/proxy-manager.ts:40-41 | `h:80:u@y:90` is read as the proxy y:90 of user h with password 80:u. |
| ProxyManager.RefusedExample | apps/backend/src/api/proxy-manager.ts:40-51 | `h:80:u:p@x` is refused. |
| ProxyManager.AcceptedIsWellFormed | apps/backend/src/api/proxy-manager.ts:49-56 | An accepted line names a well-formed host and a port from 1 to 65535. |
| ProxyManager.ProxyStore.CreateProxy | apps/backend/src/api/store.ts:205 | Refused exactly if the key is stored already. |
| ProxyManager.ProxyStore.ImportText | apps/backend/src/api/controller.ts:125 | The route's loop: the store afterwards and both numbers reported. |
| ProxyManager.KeysAfter | apps/backend/src/api/controller.ts:125 | After any number of lines the keys are the old ones and those read so far. |
| ProxyManager.BulkImport | apps/backend/src/api/controller.ts:125 | Lines = created + invalid + already there + blank or comment; keys stay unique; the key set is the old one and the parsed ones. |
| ProxyImport.LinesAre | apps/backend/src/api/controller.ts:125 | A text's lines are exactly those that, joined by line ends with or without carriage returns, give the text. |
| ProxyImport.AddedRecords | apps/backend/src/api/controller.ts:125 | Each added record comes from the first line with its key, with that line's host, port, user name and password; `invalid` counts the lines that are neither blank, nor a comment, nor a proxy. |
| ProxyManager.ImportIsIdempotent | apps/backend/src/api/controller.ts:125 | Importing the text again creates nothing, reports the same invalid lines and leaves the store alone. |

## Left out

- Telegram, BullMQ, ioredis and Prisma themselves, HTTP parsing, server-sent events, health probes,
  the frontend.
- Cryptography: password hashing, token signatures, encryption of proxy credentials and sessions.
- Reading XLSX and CSV files into cells, file name and size limits, non-ASCII text, JavaScript's
  reading of numbers in general.
- tdata archives, environment parsing, worker health ranking, response mapping, roles and masking.
- Two HTTP requests interleaved inside their handlers; two refreshes at once could both pass the
  session check.
- Overlapping invitation runs of one task: the users are read before the lock is taken, so both may
  attempt a user.
- A run whose account is locked still marks its task COMPLETED; that is `ProcessInvitations` with
  nothing granted, not a separate result.
- The in-memory listing of contacts, which is unsorted: contact paging is stated for the database
  ordering.
- Bulk import over the database: there an existing proxy raises another error than PROXY_EXISTS and
  the import fails; and editing a proxy in the in-memory store can repeat a key.
- The set of invalidated users is that of one process; after a restart it is empty.
- PROCESS_INVITATION_ITEM for a single user has the shape of the other handlers without a timer and
  has no method of its own.
- The methods of module HandlerMethods run alone; interleaving, and with it the loss of a lease
  while an operation runs, is in module Handlers.
- Register, forgot-password and user management are steps of the session machine without a method of
  their own.
