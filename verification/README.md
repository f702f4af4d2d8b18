# Model and proofs of the relay's stateful parts

This project models the stateful components of a Go relay for LLM APIs - the quota ledger and its
write-behind buffer, the request handlers and the retry loop around it, the channel tables and the
index derived from them, the rate limiters, the alert breaker, the stream tokenizers and the SSE
relay, and a few smaller pieces - and proves what they keep over whole runs. Run
`dafny verify dfyconfig.toml` in this directory.

## How it is built

Code that updates fields, maps or buffers step by step is a class or a method with loops, proved equal
to a specification function; what the program promises is then proved about those functions over every
run. State machines interleave freely: their runs are arbitrary event sequences.

| file | models |
|---|---|
| `Ledger.dfy` | the five counters, the pending stores, the worker's swap and its per-entry updates; batch mode refines direct mode |
| `Requests.dfy` | text, audio and image requests as a machine that issues ledger records one by one |
| `Conservation.dfy`, `DoubleEntry.dfy` | per-user conservation, double entry, and the constant limit of a token |
| `Store.dfy`, `Handlers.dfy`, `HandlerRuns.dfy`, `Charges.dfy` | the same operations as the program writes them; the handlers as runs of the machine, and what a whole request adds up to |
| `Retry.dfy`, `Billing.dfy` | the retry loop; prices, charges and the second meter |
| `Channels.dfy`, `ChannelStore.dfy`, `ChannelIndex.dfy` | the ability rows, the operations on them in place, the in-memory index and the two ways of choosing |
| `Distribution.dfy`, `ChannelExamples.dfy` | choosing for a request, also from an index that has fallen behind; inputs on which tables and index surprise |
| `RateLimit.dfy`, `LimiterAgreement.dfy` | the in-memory and the Redis limiter against counting over the full history, and against each other |
| `Tokenizer.dfy`, `Sse.dfy`, `StreamContents.dfy`, `Xunfei.dfy` | split functions under any chunking, the SSE relay and what a stream of chunks comes to, the websocket hand-off |
| `Options.dfy` | a value that may be missing |
| `Alerts.dfy`, `Metric.dfy`, `ImageTokens.dfy`, `Verification.dfy` | thresholds and the breaker, the success window, image tiles, the purged code map |

## Assumptions

- Database and Redis operations succeed and each one is atomic; a goroutine is a set of steps that may
  happen at any later time. The clock never runs backwards.
- `float64` is `real` and integers are unbounded. Prices are not negative. A missing channel priority is 0.
- The rows a request starts with exist and the token belongs to the requesting user; rows are not deleted
  while requests run (`SettlementBalanced` says what happens when they are).
- A channel row appears by concern: its used quota (`ChannelUsage`), its prices (`PricedChannel`), and its status, models,
  groups and priority (`Channel`). No operation of the model touches two of the three.
- A byte is a `char`. JSON decoding is an arbitrary partial function of the payload.
- A random draw is an input (`roll`, `draw`), and a map is visited in any order.

## What the proofs found

- A settlement books used quota even when the token row is gone or has changed hands and nobody is
  debited: `Conservation.SettlementBalanced` gives the exact condition, `Conservation.MissingTokenIsNotDebited`
  an input.
- A successful text run is settled once if its answer came with usage, and otherwise not at all
  (`Charges.SettledOnce`, `Charges.SuccessIsSettledIff`); `Charges.NoUsageIsNotSettled` is such a run. The Zhipu
  stream handler answers without usage when no meta line arrives.
- A channel that names a group twice gets no ability rows (its models are deduplicated, its groups are
  not), nor does any channel after it in the batch it is created with (`ChannelExamples.RepeatedGroupStopsBatch`),
  and the next index build can then write into a missing group map. `Channels.StepConsistentIff` and
  `ChannelIndex.StepBreaksBuildIff` give the exact conditions for every operation,
  `ChannelExamples.RepeatedGroupBreaksBuild` an input. Updating or enabling an id that has no channel row
  can leave enabled orphan rows: `ChannelExamples.UpdatingNothingLeavesOrphan` and
  `ChannelExamples.EnablingNothingLeavesOrphan`.
- The cached choice and the SQL choice differ when there are several priorities and the top one is not
  positive, or when a positive top priority is to be ignored: `ChannelIndex.CacheAgainstSql`, with
  `ChannelExamples.ZeroPriorityIsNotPreferred` and `ChannelExamples.IgnoredPriorityIsExcluded` as inputs.
- A request can go to a channel that was disabled or changed since the last index build:
  `Distribution.ServedAfterOperationIff` and `Distribution.ServedSinceBuildIff` say exactly when,
  `ChannelExamples.DisabledChannelIsChosen` is a run.
- Each limiter equals counting, and bounds every window, exactly when its entries outlive the window, for the
  maxima it admits: `RateLimit.MemoryEqualsCountingIff`, `RateLimit.RedisEqualsCountingIff`. What the two remember
  can differ (`LimiterAgreement.QueueOutlivesList`), and they answer alike exactly when the maximum is negative, or
  positive with a window no longer than the expiration (`LimiterAgreement.LimitersAgreeIff`). A maximum of 0 never
  reaches a limiter. For a negative one both refuse every request: the one panics on making its queue, which ends
  in a server error, and the other finds no time to parse.
- Relaying a relayed stream is the identity for every stream without stray carriage returns, and
  `Sse.RelayIsFixedPointIff` says exactly when otherwise; `Sse.CarriageReturnInStringBreaksIt` is an input. A
  line that starts with `[DONE]` and goes on with JSON loses its text (`Sse.DoneLineLosesMeaning`), and of the
  lines without stray carriage returns only such a line does (`Sse.CleanLineKeepsMeaningIff`).
- A client that leaves a Xunfei stream leaves the reading goroutine blocked for good: `Xunfei.FinishedIffNobodyLeft`.
- Alert levels climb when checks run in the order of their increments, and can go down when they overtake
  each other (`Alerts.OvertakingGoesDown`), because the counter is read and checked in two steps.
- An image more than 2048 times as long as it is wide costs no tile (`ImageTokens.NoTilesIff`).

## Model

| member | source | states |
|---|---|---|
| Ledger.BatchRefinesDirect | model/utils.go:38-78 | for every interleaving of new records with the worker's swaps and per-entry updates, in any map order: database + snapshot + pending stores is what direct mode would have |
| Ledger.ViewOfStep | model/utils.go:48-78 | a swap or a per-entry update leaves that view alone; a new record moves it as a direct update would |
| Ledger.DrainedBatchEqualsDirect | model/utils.go:38-78 | once drained, batch and direct databases are equal, even if direct mode had issued the same updates in another order |
| Ledger.DirectRunIsShift | model/utils.go:59-75 | a run of updates moves every counter by the sum of the values of its own kind and row, and nothing else |
| Ledger.DirectRunColumns | model/utils.go:59-75 | the same column by column: quota, used quota and request count of users, remain up and used down of tokens, used quota of channels |
| Ledger.TokenLimitKept | model/token.go:212-254 | no buffer step changes remain + used of a token, in the raw database |
| Requests.StepKeepsInv | relay/controller/audio.go:65-117 | every step keeps: records refer to live rows, outstanding holds are not negative, text holds nothing |
| Requests.MayPreConsumeIff | model/token.go:256-275 | the checks pass exactly when taking the quota leaves neither a limited token nor its user below zero; nothing can be taken from a user who does not exist |
| Conservation.SettlementBalanced | relay/controller/helper.go:142-161 | a settlement gives back exactly what the request held iff the token row exists and belongs to the user, or nothing is left to debit |
| Conservation.MissingTokenIsNotDebited | model/token.go:321-325 | a settlement without its token row: five units of used quota booked, none debited |
| Conservation.NetSettlement | relay/billing/billing.go:25-50 | what a settlement nets for any user, including one whose token row is missing or belongs to somebody else |
| Conservation.ConservationStep | model/user.go:348-404 | one step changes quota + used quota + outstanding of a user by its top-up and nothing else |
| Conservation.Conservation | relay/controller/audio.go:81-117 | over every interleaving of text, audio and image requests with the worker: quota + used quota + outstanding is the initial amount plus top-ups |
| DoubleEntry.ConservationAtRest | relay/controller/audio.go:81-117 | the same in the database itself, at rest |
| DoubleEntry.DecisionsAreBalanced | relay/billing/billing.go:48-49 | every list of records a request decides on books users and channels by the same amount |
| DoubleEntry.GapKept | relay/billing/billing.go:25-50 | over every run, channels' used quota minus users' used quota, counting what is not booked yet, never moves |
| DoubleEntry.DoubleEntryAtRest | relay/billing/billing.go:48-49 | at rest, in direct and in drained batch mode, the sums over channels and over users have moved alike |
| DoubleEntry.LimitKept | model/token.go:212-342 | remain + used of a token is constant at every moment of every run without a monthly reset |
| Store.LedgerStore.constructor | model/utils.go:22-27 | starts with empty stores |
| Store.LedgerStore.AddNewRecord | model/utils.go:38-46 | in place, the buffer step that adds a record |
| Store.LedgerStore.ApplyRecord | model/utils.go:59-75 | the UPDATE for one entry of each kind |
| Store.LedgerStore.ApplyStore | model/utils.go:56-75 | applying a swapped-out store entry by entry, in whatever order, leaves the view alone |
| Store.LedgerStore.BatchUpdate | model/utils.go:48-78 | a whole pass leaves empty stores and the database that the view promised, in whatever order entries are visited |
| Store.LedgerStore.Issue | model/user.go:348-362 | one record in the configured mode, in place |
| Store.LedgerStore.IncreaseUserQuota | model/user.go:348-362 | refuses a negative amount and changes nothing; else issues the credit |
| Store.LedgerStore.DecreaseUserQuota | model/user.go:364-378 | refuses a negative amount and changes nothing; else issues the debit |
| Store.LedgerStore.IncreaseTokenQuota | model/token.go:212-232 | refuses a negative amount; else moves remain up and used down |
| Store.LedgerStore.DecreaseTokenQuota | model/token.go:234-254 | refuses a negative amount; else moves remain down and used up |
| Store.LedgerStore.UpdateUserUsedQuotaAndRequestCount | model/user.go:385-404 | one combined UPDATE in direct mode equals the two records of batch mode |
| Store.LedgerStore.UpdateChannelUsedQuota | model/channel.go:237-250 | issues the channel's record |
| Store.LedgerStore.PreConsumeTokenQuota | model/token.go:256-319 | succeeds exactly when the amount is not negative, the token exists, and taking it would leave neither a limited token nor its user below zero; then issues the debits, and otherwise nothing changes |
| Store.LedgerStore.PostConsumeTokenQuota | model/token.go:321-342 | debits or credits by sign; fails, changing nothing, exactly when the token row is missing |
| Store.LedgerStore.ResetMonthlyQuotas | model/token.go:43-46 | every token with a positive monthly quota has it as its remain quota; nothing else changes |
| Store.EmitAllConcat | model/utils.go:38-46 | issuing two lists is issuing their concatenation, in either mode |
| Store.EmitAllIs | model/user.go:348-404 | issuing a list is a run of updates in direct mode, and in batch mode leaves the database alone and the view such a run would give |
| Store.EmitAllShape | model/token.go:321-342 | issuing records never changes what later decisions read of a token row |
| Billing.TextQuotaIs | relay/controller/helper.go:102-136 | a text request is charged its tokens at the price listed for its model, or else the channel's own, rounded up; exactly when it is free |
| Billing.TrackedCostIs | relay/controller/helper.go:236-243 | the counter takes that cost in millions, not rounded |
| Billing.AudioQuotaIs | relay/controller/audio.go:55-75 | audio is charged its characters or recognised tokens at the input price, rounded up |
| Billing.ImageQuotaIs | relay/controller/image.go:172-212 | images are charged a thousand tokens times the cost ratio each, rounded up before and after pricing; Replicate one image |
| Billing.ListedModelIsCharged | model/channel.go:265-279 | a model with a price of its own on a channel without, charged 60000 for 1000 and 500 tokens |
| Billing.MeterOne | relay/controller/helper.go:107-136 | the ledger charges the metered cost of one settlement rounded up by less than one unit |
| Billing.MetersAgree | relay/controller/helper.go:107-118 | over n settlements 0 <= charged - 1000000 * tracked, and less than n when n >= 1 |
| Retry.RunProperties | controller/relay.go:45-103 | 1 to 1 + RetryTimes attempts, never two in a row on one channel, exactly the draws with repetitions dropped, only the last may succeed; a failed run used up its draws, found no channel, or was not to be retried: a chosen channel, status 400 or a success status |
| Retry.RetriedIff | controller/relay.go:105-122 | another channel is asked for exactly when retries are configured, the caller did not choose the channel, and the status is 429, a server error, or neither 400 nor a success |
| Retry.AtMostOneSuccess | controller/relay.go:54-91 | a run succeeds at most once, exactly when it reports success |
| Handlers.PostConsumeQuota | relay/billing/billing.go:25-55 | issues exactly the settlement of the request by delta |
| Handlers.RelayTextHelper | relay/controller/text.go:24-84 | a failed attempt leaves the ledger alone; an answered one settles once if it has usage |
| Handlers.Relay | controller/relay.go:45-103 | the attempts are those of the retry loop; exactly which first failures are retried; the ledger afterwards is that of the last attempt alone: the records of the run, none if it failed |
| Handlers.RetryText | controller/relay.go:68-90 | the loop of it: same attempts, same records |
| Handlers.RelayAudioHelper | relay/controller/audio.go:29-244 | which error for which input, what is taken in advance and when it is skipped, and the whole ledger afterwards: refund or settlement by delta |
| Handlers.FinishAudio | relay/controller/audio.go:100-117 | the deferred end of an audio request: refund of a hold, or settlement |
| Handlers.RelayImageHelper | relay/controller/image.go:172-262 | charge check, and settlement whenever the response is absent, 200 or 201, even if reading it fails |
| Handlers.PlanKept | relay/controller/audio.go:217-228 | taking quota in advance does not change what is decided later |
| Handlers.TakeInAdvance | relay/controller/audio.go:95-100 | the hold is taken whole, or nothing changes, and exactly when its quotas suffice |
| Handlers.HoldIs | relay/controller/audio.go:90-94 | something is held exactly when there is something to pay and the user has not a hundred times as much |
| Handlers.AudioAmountsAre | relay/controller/audio.go:65-75 | speech is priced by its input before it is sent, everything else by what was recognised |
| Handlers.AudioInTwoParts | relay/controller/audio.go:95-117 | deciding after the hold was taken issues the records of one plan made before it |
| HandlerRuns.ExecAll | relay/billing/billing.go:25-50 | a request left alone issues its queue record by record as the methods issue a list |
| HandlerRuns.RequestRun | relay/controller/audio.go:95-228 | start, issue, end, issue: the machine issues exactly the hold and the refund or settlement, and leaves nothing outstanding |
| HandlerRuns.AudioIsRun | relay/controller/audio.go:29-244 | that run ends in the ledger RelayAudioHelper promises |
| HandlerRuns.ImageIsRun | relay/controller/image.go:172-262 | and in the one RelayImageHelper promises |
| HandlerRuns.TextIsRun | controller/relay.go:45-103 | and in the one Relay promises for an answer with usage |
| HandlerRuns.RequestConserves | relay/controller/audio.go:81-117 | so a whole request leaves quota + used quota of every user as it was |
| Charges.SettlementTotal | relay/controller/helper.go:142-161 | for each of the five counters of every row, what a settlement moves |
| Charges.TextTotal | relay/controller/helper.go:91-162 | a settled text request moves every counter by its price once and counts one request, free or not |
| Charges.TextColumns | relay/controller/helper.go:142-161 | in the rows themselves: user, token and channel after a settled text request, column by column, and no other row |
| Charges.RunTotal | controller/relay.go:45-103 | a whole text run moves every counter by one settlement if usage came with the last answer, and by nothing otherwise |
| Charges.SettledOnce | controller/relay.go:54-91 | for all draws, outcomes and numbers of retries: the request is counted exactly once if an attempt succeeds and reports usage, and never otherwise |
| Charges.SuccessIsSettledIff | relay/controller/helper.go:91-95 | a successful run issues a settlement exactly when its answer came with usage |
| Charges.NoUsageIsNotSettled | relay/controller/helper.go:91-95 | a run that succeeds without usage and issues nothing |
| Charges.AudioTotal | relay/controller/audio.go:95-117 | every counter ends the same whether quota was taken in advance or not; a failure moves none |
| Charges.HoldDoesNotMatter | relay/controller/audio.go:90-117 | so the database ends the same, and a failed request leaves it as it was |
| Channels.SplitJoin | model/ability.go:54-56 | splitting at commas loses nothing and leaves no comma |
| Channels.ColumnsAre | model/channel.go:154-173 | what an insertion fills in, which columns an update overwrites, and which statuses are enabled and disabled |
| Channels.InsertIff | model/channel.go:112-125 | creating a batch keeps the ability rows consistent iff no channel of it names a group twice |
| Channels.AddAllMatches | model/channel.go:118-123 | the channels before the first that names a group twice get exactly their rows, it and those after it get none, and nobody else's change |
| Channels.UpdateLiveIff | model/channel.go:164-173 | Update of a live channel keeps them consistent iff no group is named twice or the rows need not change |
| Channels.UpdateDeadIff | model/channel.go:164-173 | Update of a missing channel keeps them consistent iff it creates no enabled row |
| Channels.SetStatusIff | model/channel.go:217-235 | a status change keeps them consistent iff the channel lives, or it does not enable, or nothing is left to enable |
| Channels.DeletionsKeepConsistency | model/channel.go:195-203 | Delete and DeleteDisabledChannel keep them consistent though the latter leaves orphans |
| Channels.StepConsistentIff | model/ability.go:53-105 | every operation keeps the tables consistent exactly when it is safe |
| Channels.RunKeepsConsistency | model/ability.go:53-105 | over every run of safe operations with fresh ids |
| Channels.EnabledRowsAreLive | model/ability.go:53-105 | every enabled row points to a live enabled channel that serves its group and model, with its priority |
| ChannelStore.DeDuplication | common/utils/array.go:3-13 | the same elements, each once, in any order |
| ChannelStore.ChannelTables.CreateRows | model/ability.go:70-70 | one INSERT: all rows, or none when a key is repeated or taken |
| ChannelStore.ChannelTables.AddAbilities | model/ability.go:53-71 | the nested loops create exactly the rows models x groups call for, or fail and change nothing |
| ChannelStore.ChannelTables.DeleteAbilities | model/ability.go:73-75 | afterwards rows for that channel can be created unless a group is named twice, and every other channel's rows match it as before |
| ChannelStore.ChannelTables.UpdateAbilities | model/ability.go:77-101 | replaces the rows of a channel, or rolls back |
| ChannelStore.ChannelTables.BatchInsertChannels | model/channel.go:112-125 | fails exactly for an empty batch or one with a repeated group; keeps consistent tables consistent exactly when no group is repeated |
| ChannelStore.ChannelTables.Insert | model/channel.go:154-162 | a batch of one: succeeds, and keeps consistent tables consistent, exactly when no group is repeated |
| ChannelStore.ChannelTables.Update | model/channel.go:164-173 | merges and rebuilds; keeps consistent tables consistent exactly when it is safe |
| ChannelStore.ChannelTables.UpdateChannelStatusById | model/channel.go:217-235 | every row of the channel follows the status; consistent tables stay so exactly when the change is safe |
| ChannelStore.ChannelTables.Delete | model/channel.go:195-203 | nothing that would stand in the way of that id is left, and consistent tables stay so |
| ChannelStore.ChannelTables.DeleteDisabledChannel | model/channel.go:257-260 | consistent tables stay so, and every row still enabled belongs to a live enabled channel |
| ChannelIndex.InitChannelCache | model/cache.go:173-217 | succeeds exactly when every group of an enabled channel has an ability row, and then lists exactly the enabled channels, by descending priority, without empty lists |
| ChannelIndex.AddChannel | model/cache.go:190-201 | fails exactly at a group without a map; else adds the channel to every model of every group |
| ChannelIndex.SortByPriority | model/cache.go:206-208 | a sorted permutation |
| ChannelIndex.SortIndex | model/cache.go:203-211 | every list sorted, and every channel still listed exactly where it was |
| ChannelIndex.CacheGetRandomSatisfiedChannel | model/cache.go:227-255 | the specified draw from the top level, the lower levels or all; nothing exactly when the pair is not indexed |
| ChannelIndex.ServingIsEnabledRows | model/ability.go:22-51 | the enabled channels that serve a pair are those of its enabled ability rows |
| ChannelIndex.ConsistentIsCovered | model/cache.go:173-217 | with consistent abilities, building the index never writes into a missing group map |
| ChannelIndex.CandidatesByPriority | model/cache.go:237-253 | what the index arithmetic selects, in terms of priorities |
| ChannelIndex.IndexListsEnabledRows | model/cache.go:173-217 | a built index lists exactly the enabled ability rows, and holds a pair iff it has one |
| ChannelIndex.SqlByPriority | model/ability.go:22-51 | the SQL choice draws from the maximal-priority enabled rows, or from all |
| ChannelIndex.CacheAgainstSql | model/cache.go:227-255 | the cached choice is always among the enabled rows; exactly when it equals the SQL choice; ignoring a positive top priority it is exactly the lower levels |
| ChannelIndex.StepBreaksBuildIff | model/cache.go:190-201 | for every operation on consistent tables, exactly when the next build writes into a missing map |
| ChannelExamples.RepeatedGroupBreaksBuild | model/ability.go:56-70 | one such input |
| ChannelExamples.RepeatedGroupStopsBatch | model/channel.go:118-123 | three channels created at once, of which the second names its group twice: only the first gets rows |
| ChannelExamples.UpdatingNothingLeavesOrphan | model/channel.go:164-173 | an update without a channel row that leaves an enabled row |
| ChannelExamples.EnablingNothingLeavesOrphan | model/channel.go:217-221 | enabling the rows that deleting disabled channels has left behind |
| ChannelExamples.ZeroPriorityIsNotPreferred | model/cache.go:237-246 | top priority 0: the cache offers a lower level that SQL does not |
| ChannelExamples.IgnoredPriorityIsExcluded | model/cache.go:248-252 | a positive top priority ignored: SQL offers it, the cache does not |
| ChannelIndex.ChoiceServes | model/cache.go:227-255 | a draw fails exactly when no enabled channel serves the pair, and else gives one that does |
| Distribution.Distribute | middleware/distributor.go:21-77 | which requests are aborted with which status; a channel asked for by id is enabled now; any other serves the pair as of the last build and is not blocked; an unblocked first draw is kept |
| Distribution.StillServesIff | model/channel.go:154-260 | for each operation, exactly when a channel that served a pair serves it still |
| Distribution.AlwaysServedIff | model/cache.go:219-255 | whatever the draws, they give channels that serve now iff every candidate of the index serves now |
| Distribution.ServedAfterOperationIff | model/cache.go:219-255 | always with a current index; one operation later, exactly when it keeps every candidate serving |
| Distribution.ServedSinceBuild | model/cache.go:219-225 | a channel serves until an operation stops it |
| Distribution.ServedSinceBuildIff | model/cache.go:219-225 | exactly when a channel chosen from the last build serves now, after any run of operations: not deleted, nor swept away while disabled, unless created again; the status last written is enabled; the groups and models last written name the pair |
| ChannelExamples.DisabledChannelIsChosen | model/cache.go:219-255 | a channel disabled since the last build is chosen all the same |
| Distribution.TrySkipBlockedChannel | middleware/distributor.go:122-134 | the first unblocked channel of at most ten draws; nothing iff ten were blocked or a draw found none |
| RateLimit.InMemoryRateLimiter.Request | common/rate-limit.go:45-70 | the answer and the queue of that key; a negative maximum is refused and stores nothing; other keys untouched |
| RateLimit.InMemoryRateLimiter.ClearExpiredItems | common/rate-limit.go:28-42 | every key loses its queue exactly when its newest entry is older than the expiration |
| RateLimit.RedisRateLimiter.Request | middleware/rate-limit.go:19-63 | the answer and the list of that key, an error exactly when there is no time to look at, the expiry renewed by every other answer; other keys untouched |
| RateLimit.OldestDecides | common/rate-limit.go:51-63 | looking at the oldest kept time decides as counting over the whole history does |
| RateLimit.RecentIsCount | common/rate-limit.go:51-63 | the reference counts the accepted times of the last window |
| RateLimit.WithinIsCount | common/rate-limit.go:51-63 | and those of any window |
| RateLimit.MemoryEqualsCounting | common/rate-limit.go:28-70 | for a maximum that is not negative and every interleaving with the purge loop the limiter decides as counting over the full history |
| RateLimit.MemoryAcceptsNothing | common/rate-limit.go:64-67 | for a negative maximum every request is refused and nothing is stored |
| RateLimit.MemoryEqualsCountingIff | common/rate-limit.go:28-70 | in every run iff the maximum is not negative and there is no purging or the window is at most one second longer than the expiration |
| RateLimit.NoBurst | common/rate-limit.go:45-70 | in the counting reference no window of that length, wherever it lies, holds more accepted requests than the maximum |
| RateLimit.MemoryNoBurstIff | common/rate-limit.go:28-70 | the in-memory limiter bounds every window of every run exactly when it equals counting, or its maximum is negative |
| RateLimit.RedisEqualsCounting | middleware/rate-limit.go:19-63 | the list limiter decides as counting does |
| RateLimit.RedisEqualsCountingIff | middleware/rate-limit.go:19-63 | in every run iff the maximum is positive and the time to live covers the window |
| RateLimit.RedisNoBurstIff | middleware/rate-limit.go:19-63 | the Redis limiter bounds every window of every run exactly when its time to live covers the window, or it accepts nothing |
| LimiterAgreement.LimitersAgree | middleware/rate-limit.go:19-63 | on a one-second clock both accept the same requests; every accepted time that still counts is held by the queue and by the unexpired list, at mirrored positions, and what both hold beyond it mirrors too |
| LimiterAgreement.LimitersAgreeIff | middleware/rate-limit.go:19-63 | they answer alike in every run iff the maximum is negative, or positive with a window no longer than the expiration |
| LimiterAgreement.QueueOutlivesList | middleware/rate-limit.go:34-35 | a run after which the queue holds two times and the list one |
| Tokenizer.IndexStable | relay/adaptor/zhipu/main.go:152-154 | the first occurrence of a separator stays the first when data is appended |
| Tokenizer.SplitStable | relay/adaptor/zhipu/main.go:148-159 | a token found on a prefix is found on every extension |
| Tokenizer.LineCutIs | relay/adaptor/anthropic/main.go:252-263 | the line formats cut the text before the first newline, the one without a carriage return at its end |
| Tokenizer.BraceCutIs | relay/adaptor/ollama/main.go:107-118 | the JSON format cuts the text up to and with the first brace before a newline |
| Tokenizer.EventCutIs | relay/adaptor/zhipu/main.go:148-159 | the event format cuts the text before the first blank line, once there is a colon |
| Tokenizer.HandOutThenRest | relay/adaptor/anthropic/main.go:252-263 | handing out what a buffer holds and reading on gives the tokens of the whole |
| Tokenizer.ReadsThenRest | relay/adaptor/ollama/main.go:107-118 | after any reads, tokens handed out and tokens still to come are those of the whole stream |
| Tokenizer.ChunkingDoesNotMatter | relay/adaptor/zhipu/main.go:148-159 | every division of a stream into reads gives the tokens of one whole read, for all four split functions |
| Tokenizer.HandOut | relay/adaptor/zhipu/main.go:148-159 | the scanner's inner loop returns all complete tokens and an uncut rest |
| Tokenizer.Scan | relay/adaptor/openai/main.go:29-37 | the scanner loop over any reads yields the tokens of the whole stream |
| Tokenizer.TokensRejoin | relay/adaptor/anthropic/main.go:252-263 | tokens and separators rejoin to the stream, completed by one separator if it ended inside a token |
| Tokenizer.LineRemainder | relay/adaptor/anthropic/main.go:252-263 | exactly when a stream of lines leaves no rest |
| Sse.HandleLine | relay/adaptor/openai/main.go:37-80 | which lines are forwarded, which end the stream, what text and usage they carry |
| Sse.HandleLines | relay/adaptor/openai/main.go:36-89 | the loop over any lines: the bytes written, the response text and the last usage |
| Sse.StreamHandler | relay/adaptor/openai/main.go:27-97 | for any chunking, the bytes written, the response text and the last usage are those of the whole stream |
| StreamContents.DataLineIs | relay/adaptor/openai/main.go:37-80 | for every mode and payload: when a data line is forwarded, ends the stream, adds text and reports usage |
| StreamContents.JoinedConcat | relay/adaptor/openai/main.go:61-64 | the texts of several choices are joined in order |
| StreamContents.ChunksText | relay/adaptor/openai/main.go:61-80 | the response text of a stream of chunks is their texts, in order; completions report no usage |
| StreamContents.ChunksUsage | relay/adaptor/openai/main.go:65-67 | in chat completions the usage is the last one reported |
| StreamContents.StreamOfChunks | relay/adaptor/openai/main.go:27-97 | however it is cut into reads: the text and usage, and the bytes relayed, which are the stream and a done frame |
| StreamContents.FrameBytes | common/custom-event.go:62-68 | a clean payload is written as one data field and a blank line |
| StreamContents.EscapeIs | common/custom-event.go:46-48 | how each character is written |
| Sse.WrittenHasNoCR | common/custom-event.go:46-48 | no output holds a carriage return |
| Sse.ReadBack | common/custom-event.go:62-68 | reading rendered frames back gives the frames that pass the filter, and a done line iff one is a done frame |
| Sse.DoneIsAlwaysSent | common/render/render.go:28-30 | every relayed stream holds a done frame |
| Sse.RelayIsFixedPointIff | relay/adaptor/openai/main.go:36-89 | relaying a relayed stream is the identity exactly when every forwarded line passes the filter again once escaped |
| Sse.CleanRelayIsFixedPoint | relay/adaptor/openai/main.go:36-89 | so it is for every stream whose lines hold no carriage return, for every decoder and mode |
| Sse.RelayKeepsMeaning | relay/adaptor/openai/main.go:46-80 | the relayed stream carries the same response text and usage whenever every line keeps its own |
| Sse.OneLineKeepsMeaningIff | relay/adaptor/openai/main.go:46-80 | for a stream of one line that condition is exact |
| Sse.CleanLineKeepsMeaningIff | relay/adaptor/openai/main.go:39-47 | a line without stray carriage returns keeps its own exactly when it does not start with [DONE], or carries nothing |
| Sse.CleanRelayMeansPlain | relay/adaptor/openai/main.go:39-80 | a relayed stream without stray carriage returns carries exactly the text and usage of its lines that do not start with [DONE] |
| Sse.CleanRelayKeepsTextIff | relay/adaptor/openai/main.go:39-80 | so it keeps the text of the stream exactly when no line that starts with [DONE] adds any |
| Sse.CleanRelayKeepsMeaning | relay/adaptor/openai/main.go:46-80 | so it does for streams without stray carriage returns and without lines that start with [DONE] |
| Sse.DoneLineLosesMeaning | relay/adaptor/openai/main.go:42-50 | a line [DONE] followed by JSON loses its text and usage |
| Sse.StrayCarriageReturnBreaksIt | common/custom-event.go:46-48 | any payload that fails to decode for a raw carriage return and decodes to an empty chunk once escaped: relaying twice loses its frame |
| Sse.CarriageReturnInStringBreaksIt | relay/adaptor/openai/main.go:48-57 | such a payload, a JSON string holding the raw character |
| Sse.ClientReadsFrames | common/render/render.go:12-17 | a client that follows section 9.2.6 of the HTML Living Standard reads exactly the forwarded payloads, escaped |
| Xunfei.StepKeepsInv | relay/adaptor/xunfei/main.go:196-210 | nothing lost or reordered, and content and usage sum up the frames received |
| Xunfei.Progress | relay/adaptor/xunfei/main.go:239-270 | while the handler stays, somebody can move exactly until both are done |
| Xunfei.HandOff | relay/adaptor/xunfei/main.go:186-270 | every run is bounded; at its end both are done, all frames arrived in order, and the answer is their concatenation and sum unless the last was empty |
| Xunfei.FramesConcat | relay/adaptor/xunfei/main.go:199-206 | contents are joined and the three counts of a usage are added up, each with its own |
| Xunfei.ExpectedIs | relay/adaptor/xunfei/main.go:239-266 | what arrives: all frames up to and with the first of status 2, or all before the first that cannot be read or decoded |
| Xunfei.FinishedIffNobodyLeft | relay/adaptor/xunfei/main.go:156-184 | the reading goroutine ends exactly when the client never leaves |
| Alerts.BandClimbs | common/alert.go:44-82 | more usage never reaches a lower level, and the block level is reached iff usage reaches a positive limit |
| Alerts.BandIs | common/alert.go:44-82 | the levels begin at 80, 90 and 100 percent of a positive limit, each included |
| Alerts.ChecksRecord | common/alert.go:44-82 | flags, marks and records after any list of checks: each level once, at its first occurrence |
| Alerts.ClimbingIff | common/alert.go:44-82 | the recorded levels climb exactly when no level is reached late |
| Alerts.AlertsOverAMonth | relay/controller/helper.go:223-263 | interleaved with the ledger, and with checks in any order: each level once, none above the usage, blocked iff recorded so |
| Alerts.AlertsAtRest | relay/controller/helper.go:223-263 | once all checks have run, blocked iff the limit is reached, and the top level is on record |
| Alerts.LevelsClimb | relay/controller/helper.go:223-263 | exactly when the levels of a month climb; they do when checks run in the order of the increments |
| Alerts.OvertakingGoesDown | relay/controller/helper.go:245-262 | two overtaking checks record critical before warning |
| Alerts.StaysBlocked | common/quota.go:57-93 | a blocked user stays so until an administrator unblocks |
| Alerts.BlocksFollowUnblocks | common/alert.go:52-61 | the block is recorded at most once for every unblock, and once more while it lasts |
| Alerts.TrackingIsTwoSteps | relay/controller/helper.go:223-263 | tracking a request is an increment and the check of its own value, back to back |
| Alerts.UserQuotas.IncrUserQuota | common/quota.go:26-40 | the new counter value, 0 without Redis; other users untouched |
| Alerts.UserQuotas.CheckAndAlert | common/alert.go:44-82 | tripped iff usage reaches a positive limit; flags, marks and records afterwards, with and without Redis |
| Alerts.UserQuotas.TrackUsage | relay/controller/helper.go:223-263 | increment and check against remain + used of the token, skipped as the source skips them; nothing changes without Redis |
| Alerts.UserQuotas.UnblockUser | common/quota.go:82-93 | lifts the block of that user and nothing else |
| Metric.WindowIsSuffix | monitor/metric.go:11-38 | the window is the last min(k, queue size + 1) outcomes since the last reset |
| Metric.ShareIs | monitor/metric.go:23-29 | the share times the window is the number of successes in it |
| Metric.DisablesIff | monitor/metric.go:18-38 | the next outcome disables the channel iff it is a failure, the window of last outcomes is long enough, and the successes counted in it are below the threshold |
| Metric.AlarmsAreApart | monitor/metric.go:18-38 | a channel is only disabled on a failure, after at least queue size outcomes, and as many later again |
| Metric.ChannelMetrics.ConsumeSuccess | monitor/metric.go:11-16 | the window of that channel afterwards; others untouched |
| Metric.SuccessRate | monitor/metric.go:23-29 | the counting loop: the rate times the window is the number of successes |
| Metric.ChannelMetrics.ConsumeFail | monitor/metric.go:18-38 | rate and decision by the successes counted in the window, which is reset when the channel is disabled; others untouched |
| ImageTokens.ScaleBounds | relay/adaptor/openai/token.go:199-208 | truncated scaling lands the base side on the target, enlarges nothing, and empties a side exactly when it is short enough |
| ImageTokens.RescaledBounds | relay/adaptor/openai/token.go:199-208 | longer side at most 2048, shorter at most 768, no side grows, order kept; identity exactly within both |
| ImageTokens.RescaledIs | relay/adaptor/openai/token.go:199-208 | both stages in whole numbers |
| ImageTokens.CostIs | relay/adaptor/openai/token.go:209-214 | the tiles of the rescaled image in whole numbers, and the cost per tile and image for both kinds of model |
| ImageTokens.UnscaledCosts | relay/adaptor/openai/token.go:180-184 | the image the source mentions costs 255; the largest unscaled one reaches the bounds |
| ImageTokens.ScaledCosts | relay/adaptor/openai/token.go:199-214 | a square of 1024 costs 765, an image of 2048 by 4096 costs 1105 |
| ImageTokens.RescalingIsIdempotent | relay/adaptor/openai/token.go:199-208 | rescaling twice is rescaling once |
| ImageTokens.TileBound | relay/adaptor/openai/token.go:209-209 | at most eight tiles for any image |
| ImageTokens.NoTilesIff | relay/adaptor/openai/token.go:199-209 | exactly which images cost no tile |
| ImageTokens.CountImageTokens | relay/adaptor/openai/token.go:154-218 | which requests fail, the cost by detail and model in whole numbers, and its bounds 85 to 1445, or 48169 for the mini model |
| Verification.FullKeyIsInjective | common/verification.go:34-36 | keys of different purposes never collide |
| Verification.PurgingIsNotObserved | common/verification.go:34-71 | in every run the purged map gives the answers of one never purged |
| Verification.VerifiesIff | common/verification.go:46-55 | a code verifies iff it is the latest registered for its purpose and key, not deleted, and under ten minutes old |
| Verification.VerificationMap.RegisterVerificationCodeWithKey | common/verification.go:34-44 | stores the code; more than ten pairs are left only if none has expired; fewer than ten are never purged |
| Verification.VerificationMap.VerifyCodeWithKey | common/verification.go:46-55 | accepts exactly what the specification accepts |
| Verification.VerificationMap.DeleteKey | common/verification.go:57-61 | afterwards no code verifies for that key, and every other key answers as before |
| Verification.VerificationMap.RemoveExpiredPairs | common/verification.go:64-71 | keeps exactly the pairs that have not expired, in whatever order they are visited |

## Left out

- HTTP, gin contexts, sessions, OAuth, mail, logging, the web interface: input and output.
- The Redis cache of user quota: it is an input of the handlers (`cachedQuota`); it is not claimed to agree with the database.
- "Charged at most once" over a retried image or audio request: image settles even when reading the response fails, and audio has succeeded before the body is copied out, so a retry can charge again.
- 64-bit overflow, floating-point rounding, and the size limit of a scanner's buffer.
- Deletion of users, tokens and channels, and admin edits of quotas, while requests run.
- A monthly reset within the month of `Alerts`, which moves the limit; the reset itself is in the ledger machine.
- Approval of quota requests: it does not test the pending status, so it is not claimed to happen once.
- The unit of alert limits: usage is in yuan and the limit in quota units; they are related as plain reals.
- Channel-level alerts, health probing, keyword classification and emission to the metric goroutines: single branches or network calls.
- Vendor request and response mapping, the loop that turns Zhipu, Anthropic and Ollama tokens into chunks, the SRT extraction: field by field and repetitive.
- Tokenisers of the text itself, signatures, image decoding: foreign libraries; image sizes are inputs.
- The first websocket read of Xunfei, which fails the request before the goroutine starts; a failed read and an undecodable frame are one case.
- What Xunfei's handler renders from the last frame besides content and usage.
- Alerts.UserQuotas.TrackUsage: modelled as one atomic step; the two-step interleaving is in `Alerts.Step`.
- ChannelIndex.CacheGetRandomSatisfiedChannel: a channel that names a model twice is listed twice, which changes how likely it is drawn, not whether.
- Distribution.Distribute: automatic choice of a model and the missing-row abort of the SQL path are not part of this model.
- Interleaving of the separate statements of one channel operation with each other: each operation is one step.
