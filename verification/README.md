# EnBooster: a verified model

EnBooster is a Telegram bot for learning a language. Its gateway, learn, users and AI services share a few small
protocols over Redis, Postgres and Kafka, and this project models those in Dafny and proves what they guarantee.
`dafny verify dfyconfig.toml` checks everything.

| module | what it models |
|---|---|
| `Words` | the dictionary query of a Shiritori turn, and what the gateway makes of the answer |
| `Shiritori`, `ShiritoriGame` | one turn of the word game on the stored session, and whole games: words said, chain, score, length |
| `Tasks` | the tasks table and its read-max-then-insert numbering, also under concurrent calls |
| `Redis`, `CacheKeys`, `TaskCache`, `CacheThreshold` | the counting script, the keys built in pooled buffers, the adaptive cache in front of the tasks, and which reads fill it |
| `UserStats`, `AnswerReplay` | the statistics row of a user, and the Kafka consumer that updates it and may crash and replay |
| `RateLimiter`, `WorkerGate` | the per-user message limit, and the counter in front of each AI call |
| `StateManager`, `Answers`, `Router`, `RouterRuns` | the stored state of a user, how answers are marked, the handlers that move the state, and whole runs of them |
| `Decimal`, `Slices`, `Sets`, `ChatIdText`, `Slots` | the hand-written integer printer and parser across two services, and the notification slots |

Code that changes state in place is modelled as classes and methods. Each such method is proved equal to a function of
the old state, and the theorems are about that function over every run.

Where the code and the project's own README.md disagree, the model follows the code:

* "unique word usage per session" (README.md:77): the bot may say a word the user has already played.
  `ShiritoriGame.BotCanRepeatUser` is such a game, and `ShiritoriGame.BotRepeatsExactly` says exactly when it happens.
* "sliding window" (README.md:83): the limiter's windows are fixed. `RateLimiter.RateBound` is the true bound,
  `RateLimiter.BoundReached` shows that it is reached, and `RateLimiter.SlidingExactly` says for which limits the
  promise holds.
* "more than 30 hits" (README.md:82): the tenth read within one life of a counter caches
  (`CacheThreshold.CachesExactly`, `CacheThreshold.TenthReadCaches`).

Other behaviour worth knowing:

* `itoa` prints the least int64 as a lone sign, and `atoi` reads every negative chat id as 0
  (`ChatIdText.ItoaTextCanonical`, `ChatIdText.RoundTripNegative`).
* A bulk insert that mixes levels can leave holes in the numbering (`Tasks.MixedLevelsLeaveGap`;
  exactly when: `Tasks.CallKeepsDense`).
* Ten reads of a missing task hide it for a while after it is added (`TaskCache.NewTaskHidden`;
  exactly when: `TaskCache.StaleExactly`).
* A failed statistics update is lost once a later message is committed before a restart
  (`AnswerReplay.FailedUpdateIsLost`; exactly when: `AnswerReplay.LostExactly`).
* Rejected AI calls occupy a place until they return (`WorkerGate.RejectedCallsBlock`).
* The admin command "word_del" never takes effect (`RouterRuns.WordDeletionForgotten`).
* A task answer moves the stored score by two (`RouterRuns.AnswersCountTwice`).
* The system prompt handed to the AI is always empty (`RouterRuns.PromptNeverSent`).
* "/stop" may fail in the speech modes (`RouterRuns.StopExactly`).

## Model

| member | source | states |
|---|---|---|
| Words.GetLastLetter | gateway/internal/learn/words.go:189-209 | the small letter of the last character that is none of e, E, j, J, q, Q, s, S, or nothing exactly when every character is one of these |
| Words.LastLetterMeaning | gateway/internal/learn/words.go:193-208 | the same of the function the game is specified by |
| Words.LowerMeaning | gateway/internal/users/handler.go:326-328 | lower-casing maps each capital to its small letter and leaves every other character alone |
| Words.OrderedIsSorted | learn-service/internal/db/words.go:118-125 | ORDER BY: exactly the filtered rows, the user's word first, the rest strictly ascending by serial |
| Words.GetWordsWithTarget | gateway/internal/learn/words.go:98-144 | found is passed on; a known word's row is dropped from the head, an unknown one leaves the pooled buffer as it was |
| Words.FoundMeansKnown | learn-service/main.go:374-397 | for every limit, found holds exactly when some row holds the user's word |
| Words.BotReply | learn-service/internal/db/words.go:107-146 | filter, sort, limit and dropping the head give the smallest-serial row with the right letter, past the cursor, other than the user's word; none exactly when there is no such row or the limit is 0 |
| Words.ReplyIsSmallest | gateway/internal/learn/words.go:123-143 | over unique word texts every reply is that row |
| Words.ReplyDiffers | learn-service/init.sql:12-21 | without uniqueness: the reply differs from the user's word exactly when one row holds that word |
| Words.AnswerRows | learn-service/internal/db/words.go:110-125 | the whole answer about a word that one row holds: that row, then the smallest candidates in order, as many as there are up to the limit |
| Shiritori.UpdateUserShiritoriCtx | gateway/internal/users/handler.go:308-357 | mismatch first, then repeat; either leaves session and store alone; otherwise both words, the bot's last letter, the cursor and the counter are recorded and saved |
| Shiritori.HandleShiritori | gateway/internal/router/user.go:90-226 | the whole turn: stored game and outcome are those of the rules, for any leftover in the pooled buffer |
| Shiritori.Continue | gateway/internal/router/user.go:161-226 | its second half, once the dictionary has answered |
| ShiritoriGame.HeardBecomes | gateway/internal/router/user.go:113-226 | a message ends the game, adds one legal round, is counted as a miss, or leaves no trace at all |
| ShiritoriGame.OutcomeExactly | gateway/internal/router/user.go:113-226 | each of the eight outcomes, with the game it leaves, happens if and only if the dictionary and the session call for it: which words are invalid, unknown, unanswerable, mismatched or repeated, and which attempts are counted |
| ShiritoriGame.AcceptedExactly | gateway/internal/router/user.go:144-203 | a word is accepted with a given reply if and only if it is known, chained, unused, has a last letter, and the reply is the smallest-serial candidate and usable |
| ShiritoriGame.AcceptedReply | gateway/internal/router/user.go:183-203 | the reply of an accepted round is the smallest-serial candidate |
| ShiritoriGame.ScoreStep | gateway/internal/router/user.go:137-186 | every event keeps the score equations |
| ShiritoriGame.ScoreConservation | gateway/internal/router/user.go:113-186 | in every run: all words = attempts + rounds, correct words = rounds, attempts = rounds + misses, and rounds <= used words <= 2 rounds |
| ShiritoriGame.StopReport | gateway/internal/router/user.go:113-133 | the figures printed at /stop are the true ones and neither unsigned difference wraps |
| ShiritoriGame.HistoryStep | gateway/internal/users/handler.go:329-352 | every event keeps: used set = words said, user words fresh, chained, last letter stored |
| ShiritoriGame.History | gateway/internal/users/handler.go:329-352 | the same over every run |
| ShiritoriGame.RowsStep | gateway/internal/users/handler.go:343 | every event keeps: bot rows of one letter strictly ascend and the cursor is at or past them, even while the dictionary changes |
| ShiritoriGame.Rows | learn-service/internal/db/words.go:117-125 | the same over every run in which serials are not reused |
| ShiritoriGame.BotRowsDistinct | learn-service/init.sql:17 | no row serves the bot twice in a game, even when rows come and go between turns |
| ShiritoriGame.NoRepeat | gateway/internal/users/handler.go:335-343 | in a game over one dictionary two equal words can only be a user word and a bot word of a strictly later round |
| ShiritoriGame.AtMostTwice | README.md:77 | so no word is said more than twice in a game |
| ShiritoriGame.StaleReply | gateway/internal/users/handler.go:335-343 | an accepted reply was said before in the game if and only if it is a word the user has played |
| ShiritoriGame.BotRepeatsExactly | README.md:77 | a turn breaks the promise if and only if, before it, the word is legal and the reply it draws is a word the user has played |
| ShiritoriGame.BotCanRepeatUser | README.md:77 | a game of two rounds in which the bot repeats the user's first word |
| ShiritoriGame.ChainRule | gateway/internal/learn/words.go:189-209 | each word after the first starts, ignoring case, with the last usable letter of the word before; the stored letter is empty exactly before the first round |
| ShiritoriGame.TurnMeasure | learn-service/internal/db/words.go:117-124 | an accepted round uses up a reachable row; any other message that keeps the game going uses up none |
| ShiritoriGame.RoundsBounded | learn-service/internal/db/words.go:117-124 | a game has at most as many accepted rounds as the dictionary has rows |
| Tasks.MaxPositionFacts | learn-service/internal/db/tasks.go:25-40 | COALESCE(MAX(position), 0): no row of the level lies above it, and it is taken unless the level is empty |
| Tasks.TaskDB.SelectMaxPosition | learn-service/internal/db/tasks.go:25-40 | the read half of a bulk insert: no row of the level lies above the result, which is taken unless the level is empty and it is 0 |
| Tasks.TaskDB.Insert | learn-service/internal/db/tasks.go:61-64 | the statement succeeds exactly when no row hits a row of the table or another row of the statement, and otherwise changes nothing |
| Tasks.TaskDB.NewTaskBulk | learn-service/internal/db/tasks.go:15-77 | empty batches fail; otherwise all tasks go in under the next numbers of the first task's level, or none does |
| Tasks.DeletionKeepsDense | learn-service/internal/db/tasks.go:118-144 | a deletion keeps every level 1..m if and only if there was no such row or it was the last of its level |
| Tasks.PutContents | learn-service/internal/db/tasks.go:45-49 | a successful statement adds exactly its rows and changes no other |
| Tasks.OneMore | learn-service/init.sql:7-9 | one more row keeps a level numbered 1..m exactly when it takes m + 1 |
| Tasks.BulkKeepsDense | learn-service/internal/db/tasks.go:22-49 | a statement of any levels keeps every level 1..m exactly when each row has the next free number of its own level |
| Tasks.CallKeepsDense | learn-service/internal/db/tasks.go:15-77 | a whole call keeps every level 1..m if and only if it is refused or every task is given the next free number of its own level; both are conditions on the maxima and the batch |
| Tasks.MixedLevelsLeaveGap | learn-service/internal/db/tasks.go:22-49 | two tasks of two levels into an empty table: the second level starts at 2 |
| Tasks.StaleOrCurrent | learn-service/internal/db/tasks.go:22-64 | a single-level insert goes in exactly when its maximum is still the current one |
| Tasks.CurrentExtends | learn-service/internal/db/tasks.go:43-64 | then its level runs on to m + n in batch order, each task under its own number, and nothing else changes |
| Tasks.WriteSound | learn-service/internal/db/tasks.go:22-64 | in any reachable state a stale insert changes nothing and any other appends its batch |
| Tasks.StepKeepsSound | learn-service/internal/db/tasks.go:15-77 | every read, insert or giving up keeps all levels 1..m and every read maximum at or below the present one |
| Tasks.NumberingHolds | learn-service/internal/db/tasks.go:15-77 | so in every interleaving of concurrent single-level inserts, at all times |
| Tasks.WriteOutcome | learn-service/internal/db/tasks.go:61-64 | and each insert of such a run fails whole or appends its whole batch |
| Redis.Client.RunIncrAndExpire | learn-service/internal/rdb/rdb.go:60-66 | the script: a dead key restarts at 1, a live one counts up, the expiry is set exactly when the new count is 1, a payload under the key is an error without effect, and no other key is touched |
| CacheKeys.BuildKey | learn-service/internal/rdb/rdb.go:139-148 | the overlapping in-place shift leaves exactly the prefix and the old contents; it panics, changing nothing, exactly when the capacity does not suffice |
| CacheKeys.KeyBuffer | learn-service/main.go:165-175 | a pooled buffer is made to hold level, colon, position, exactly when they fit |
| CacheKeys.FitsExactly | learn-service/main.go:165-175 | level and position together may take 39 bytes for a counted read, 51 for a lookup or a full deletion and 63 for the bare key; beyond that the request panics |
| CacheKeys.KeyTextInjective | learn-service/main.go:165 | different levels or positions give different key texts, whatever the level contains |
| CacheKeys.CacheKeyInjective | learn-service/internal/rdb/rdb.go:101-105 | and different cache keys |
| CacheKeys.CacheKeyIsNoCounterKey | learn-service/internal/rdb/rdb.go:71-75 | a cache key is never a counter key |
| CacheKeys.DeletedIsReadCounter | learn-service/internal/rdb/rdb.go:119-130 | a deletion removes the counter of some reads if and only if its level is theirs with the cache prefix in front |
| TaskCache.LearnServer.CacheTasks | learn-service/internal/rdb/rdb.go:68-95 | with the caller's swapped buffers: the answer is cached for one task TTL and the counter dropped exactly when the count reaches 10; a key that does not fit panics without effect |
| TaskCache.LearnServer.GetTasks | learn-service/main.go:154-228 | answers from the cache or the table, and counts or caches only on a miss; an empty level is an error and an oversized key a panic, both without effect |
| TaskCache.LearnServer.DelTask | learn-service/main.go:230-275 | removes the row, its cached answer and the bare counter key; an oversized key panics before the row or between row and keys |
| TaskCache.LimitIrrelevant | learn-service/internal/db/tasks.go:87-93 | for one position the limit sent never matters, although the key omits it |
| TaskCache.LevelLimited | learn-service/internal/db/tasks.go:83-93 | a whole level is cut at a positive limit and only there |
| TaskCache.DeletedNotServed | learn-service/main.go:255-259 | right after a deletion the position is served as empty |
| TaskCache.StepKeepsSound | learn-service/main.go:116-275 | every insert, read, deletion and passing of time keeps: a cached answer is the row now in the table, or an empty list older than the row |
| TaskCache.RunIsSound | learn-service/main.go:116-275 | the same over every serialised run |
| TaskCache.ServedIsCurrent | learn-service/main.go:189-226 | so a served task is the row now in the table; only an empty answer can be out of date, and only within one task TTL of the row's insertion; a read fails exactly on an empty level or an oversized key |
| TaskCache.StaleExactly | learn-service/main.go:189-226 | a read is out of date if and only if a live cached empty list stands for a row of the table |
| CacheThreshold.RunCounts | learn-service/internal/rdb/rdb.go:60-93 | over every run the counter of a position is the number of its database-answered reads since its window opened |
| CacheThreshold.CachesExactly | learn-service/internal/rdb/rdb.go:77-93 | such a read writes the cache if and only if it is the tenth of an unexpired window, whatever other reads, inserts, deletions and ticks lie between |
| CacheThreshold.TenthReadCaches | README.md:82 | after a read that found no live counter, and with no reset, the tenth read within the counter's life caches and none before it |
| CacheThreshold.NeverEarlier | learn-service/internal/rdb/rdb.go:81-86 | nothing is ever cached without ten such reads within one life of a counter |
| CacheThreshold.CacheLasts | learn-service/internal/rdb/rdb.go:86-90 | once cached, an answer is found for one task TTL whatever happens, unless its own position is deleted |
| TaskCache.NewTaskHidden | README.md:82 | ten reads of a free position, then an insert there: the next read still serves nothing |
| UserStats.UsersDB.UpdateStreak | users-service/internal/db/db.go:163-222 | the row becomes the simultaneous reading of all CASE expressions on the old row; an unknown user changes nothing |
| UserStats.StreakRun | users-service/internal/db/db.go:166-172 | the streak days up to the latest answered day were all answered and the day before them was not |
| UserStats.StreakClosedForm | users-service/internal/db/db.go:166-172 | the streak is the length of the longest run of answered days ending at the latest one |
| UserStats.ReminderMeansUnanswered | users-service/internal/db/db.go:142-150 | the day filter selects a user exactly when no update was applied that day |
| UserStats.ThemeExtremes | users-service/internal/db/db.go:174-200 | best and worst counter are the extremes of 0 and all counters, each with the theme of the earliest update that reached it |
| UserStats.CountersIgnoreOrder | users-service/internal/db/db.go:174-192 | reordering or duplicating updates changes neither counter |
| AnswerReplay.Consumer.ApplyAnswer | users-service/main.go:362-433 | any number of loop turns leads to the state that the turns of the model lead to |
| AnswerReplay.TurnExactly | users-service/main.go:375-429 | what one turn changes: a failed update moves the position alone; any other message is applied and, if recorded, committed |
| AnswerReplay.LoopIsRun | users-service/main.go:362-433 | any turns of the loop, failing updates included, are a run of fetch, handle, fail and commit steps with exactly these steps |
| AnswerReplay.LoopLosesExactly | users-service/main.go:410-423 | so of what the loop has committed, a message is unhandled if and only if its first update failed and a commit followed before a restart |
| AnswerReplay.Consumer.ApplyNext | users-service/main.go:375-429 | one turn: fetch, skip or update, commit |
| AnswerReplay.Consumer.Resume | users-service/main.go:375 | after a crash reading goes on at the committed offset |
| AnswerReplay.TurnKeepsThemes | users-service/main.go:362-433 | a loop turn whose update does not fail keeps the replay invariant |
| AnswerReplay.FoldCovers | users-service/internal/db/db.go:174-192 | a counter already folded lies within its user's extremes |
| AnswerReplay.StepKeepsThemes | users-service/main.go:375-423 | every produce, fetch, apply, commit, lost commit and crash keeps the themes exact |
| AnswerReplay.ThemesExactlyOnce | users-service/main.go:362-433 | in every run best and worst fields equal one left-to-right fold of the log up to the furthest handled message |
| AnswerReplay.LostExactly | users-service/main.go:410-423 | in every run, failing updates included, a message below the committed offset is unhandled if and only if a first update of it failed and a commit was recorded before any restart |
| AnswerReplay.DeliveredExactly | users-service/main.go:410-423 | so everything committed has been handled if and only if no commit follows such a failure without a restart between |
| AnswerReplay.LostForGood | users-service/main.go:410-423 | and a lost message is never handled again, whatever follows |
| AnswerReplay.NothingSkipped | users-service/main.go:418-423 | when updates do not fail, nothing below the committed offset is unhandled |
| AnswerReplay.StepKeepsRows | users-service/internal/db/db.go:163-202 | every step whose redelivery falls on the user's last active day keeps the whole table exact |
| AnswerReplay.RowsExactlyOnce | users-service/internal/db/db.go:163-202 | so in such runs the whole table, streaks included, is that fold |
| AnswerReplay.RedeliveryHarmlessExactly | users-service/internal/db/db.go:166-172 | a redelivery leaves the table alone if and only if it falls on the day the user's row shows |
| AnswerReplay.ThemesMeanLog | users-service/internal/db/db.go:174-200 | for a user who started new, in every such run the stored best and worst are the extremes of that user's events in the log, each with the theme of the earliest event reaching it |
| AnswerReplay.StreakMeansLog | users-service/internal/db/db.go:163-172 | and, with same-day redeliveries, the stored streak is the longest run of days, ending at the latest, on which that user's events were first handled |
| AnswerReplay.FailedUpdateIsLost | users-service/main.go:410-416 | the shortest loss: after a failed update the next message's commit passes the lost event |
| RateLimiter.Limiter.Handle | gateway/internal/middlewares/mdwr.go:82-103 | a message passes exactly when its count is within the limit; only the sender's counter changes |
| RateLimiter.KeyInjective | gateway/internal/middlewares/mdwr.go:89-91 | different users have different keys |
| RateLimiter.Isolation | gateway/internal/middlewares/mdwr.go:89-93 | a user's entry is the same whether or not others send anything |
| RateLimiter.DecidedByOwn | gateway/internal/middlewares/mdwr.go:89-100 | whether a message passes is decided by its sender's messages alone |
| RateLimiter.RateBound | gateway/internal/middlewares/mdwr.go:63-100 | over every trace, k lifetimes let at most (k + 1) * limit - 1 messages of a user through |
| RateLimiter.BoundReached | gateway/internal/middlewares/mdwr.go:63-100 | for every limit and k some trace reaches that bound |
| RateLimiter.SlidingExactly | README.md:83 | never more than the limit within one lifetime: true if and only if the limit is at most 1 |
| RateLimiter.NothingPasses | gateway/internal/middlewares/mdwr.go:98-100 | with a limit below 1 nothing passes |
| WorkerGate.Workers.AddOne | ai-service/main.go:150 | the atomic increment and the value the call compares |
| WorkerGate.Workers.Admit | ai-service/main.go:150-152 | rejected exactly above the limit and not the admin |
| WorkerGate.Workers.SubOne | ai-service/main.go:149 | the deferred decrement, admitted or not |
| WorkerGate.StepKeepsSound | ai-service/main.go:149-152 | every interleaved step keeps: counter = calls in flight, and at most limit non-admin calls hold a value within the limit |
| WorkerGate.GateHolds | ai-service/main.go:228-231 | in every interleaving the counter is the number of calls in flight, 0 exactly when none is, and admitted non-admin calls never exceed the limit |
| WorkerGate.RejectedExactly | ai-service/main.go:261-264 | a call is rejected if and only if it is not the admin's and at least limit calls were in flight as it entered |
| WorkerGate.AloneIsAdmitted | ai-service/main.go:149-152 | a call alone in flight is admitted when the limit is at least 1 |
| WorkerGate.RejectedCallsBlock | ai-service/main.go:149-152 | with limit 1, a call can be turned away while nobody is admitted, because a rejected call still counts |
| StateManager.Manager.GetUserCtx | gateway/internal/statemanager/stmngr.go:102-128 | a missing hash reads as no state and no payload |
| StateManager.Manager.UpdUserStateCtx | gateway/internal/statemanager/stmngr.go:156-188 | the state changes and the payload stays, or starts empty |
| StateManager.Manager.UpdateUserDataCtx | gateway/internal/statemanager/stmngr.go:190-223 | the payload changes and the state stays, or starts as none |
| Router.Server.HandleText | gateway/internal/router/router.go:148-197 | dispatch of a text message: only this user's context changes, to the one the table gives |
| Router.Server.HandleDefaultState | gateway/internal/router/router.go:306-325 | admin commands first, for the admin, then the user's state |
| Router.Server.HandleAdmin | gateway/internal/router/admin.go:29-107 | which commands are handled and what they store; "word_del" stores its state but does not count as handled |
| Router.Server.HandleState | gateway/internal/router/user.go:45-400 | the context and the published event after a message, for all sixteen states |
| Router.Server.PlayShiritori | gateway/internal/router/user.go:90-226 | the game turn inside the stored hash: written back exactly when it counts or ends the game |
| Router.Server.AnswerTask | gateway/internal/router/user.go:57-89 | an answer equal to the stored one publishes the counter plus 1 and stores it plus 2, any other minus 1 and minus 2 |
| Router.Server.UpdateUserTaskCtx | gateway/internal/users/handler.go:260-305 | the stored score goes on by the given amount, theme, answer and state are replaced |
| Router.Server.GenerateText | gateway/internal/router/user.go:414-452 | the AI gets the prompt of the stored record, and its text becomes the last message in whatever hash is left by then |
| Router.Server.HandleVoice | gateway/internal/router/user.go:456-501 | listening leaves the store alone except for "/stop" |
| Router.Server.HandleTTS | gateway/internal/router/user.go:505-565 | "/stop" ends the mode, anything else is generated from |
| RouterRuns.PayloadFitsState | gateway/internal/statemanager/stmngr.go:17-71 | over every run: Shiritori has an empty or game payload, task learning a task payload, admin states belong to the admin, three states never rest in the store, no stored score is odd and no stored prompt is set |
| RouterRuns.AnswersCountTwice | gateway/internal/router/user.go:57-89 | in every run an answer finds its task, moves the stored score up or down by two, right or wrong, and publishes the odd number between |
| RouterRuns.CommandLeads | gateway/internal/router/router.go:160-194 | the state and payload each command of a user or the admin leads to, from any state |
| RouterRuns.TaskIsMarked | gateway/internal/router/router.go:228-260 | a task given at one step and answered at a later one is marked by that task's own answer and published under its own theme |
| RouterRuns.ModeIsChosen | gateway/internal/router/user.go:362-394 | after "Chatting" the next text chooses the mode it names, or none |
| RouterRuns.ButtonLeads | gateway/internal/users/users.go:216-225 | which buttons set which state; the payload always stays |
| RouterRuns.SettingIsTaken | gateway/internal/router/user.go:321-361 | the text after a settings button clears the context exactly when it is stored and confirmed |
| RouterRuns.AdminDataIsTaken | gateway/internal/router/admin.go:67-101 | the text after an admin command clears the state exactly when the service accepts it |
| RouterRuns.ModeGoesOn | gateway/internal/router/user.go:229-318 | in the text and speech modes a text other than "/stop" is answered, and the mode stays unless the hash expires |
| RouterRuns.VoiceIsHeard | gateway/internal/router/user.go:263-318 | what a voice message does in the two listening modes |
| RouterRuns.PromptNeverSent | gateway/internal/router/user.go:418-431 | in every run the prompt handed to the AI is empty |
| RouterRuns.WordDeletionForgotten | gateway/internal/router/admin.go:64-65 | right after "word_del" the admin has no state, so no word can be deleted that way |
| RouterRuns.StopExactly | gateway/internal/router/user.go:229-311 | in the five modes "/stop" clears the context: always in three, in speech-to-text if and only if the status message is sent, in speech-and-speech if and only if moreover no answer is generated afterwards |
| RouterRuns.StopLeaves | gateway/internal/router/user.go:283-311 | over every run, what "/stop" leaves: nothing, the mode itself, or an answer generated after stopping |
| RouterRuns.EventRefines | gateway/internal/router/router.go:148-206 | one event of the router is at most one event of the game |
| RouterRuns.GameRefines | gateway/internal/router/user.go:90-226 | whatever else a user does, the stored game is a run of `ShiritoriGame` |
| RouterRuns.StoredScore | gateway/internal/router/user.go:113-133 | so in every run of the router the stored counters add up and neither difference at /stop wraps |
| RouterRuns.StoredRoundsBounded | learn-service/internal/db/words.go:117-124 | and over one dictionary the stored game has at most as many rounds as there are rows |
| Answers.JoinSplit | gateway/internal/learn/tasks.go:145-146 | splitting at commas loses nothing |
| Answers.VerifyAnswer | gateway/internal/learn/tasks.go:141-160 | so comparing part by part accepts exactly the stored text |
| Decimal.DigitsDenote | users-service/internal/notifysystem/notifysystem.go:157-195 | digits written are canonical and denote the number |
| Decimal.CanonicalUnique | users-service/internal/notifysystem/notifysystem.go:157-195 | and are the only canonical text that does |
| Slices.Slice.Assign | users-service/internal/notifysystem/notifysystem.go:188-194 | growing or reslicing the output slice and copying leaves exactly the copied text in it |
| ChatIdText.FillScratch | users-service/internal/notifysystem/notifysystem.go:176-182 | the digit loop stays in the 20-byte scratch, leaves room for the sign and writes exactly the digits |
| ChatIdText.Itoa | users-service/internal/notifysystem/notifysystem.go:157-195 | what ends up in the slice, for every int64 and every slice |
| ChatIdText.ItoaTextCanonical | users-service/internal/notifysystem/notifysystem.go:168-182 | it is the canonical signed decimal if and only if the number is not the least int64 |
| ChatIdText.DenotesUnique | users-service/internal/notifysystem/notifysystem.go:155-195 | that decimal is unique |
| ChatIdText.Atoi | gateway/internal/users/handler.go:433-443 | the parser returns the leading digits' value, wrapped to int64 |
| ChatIdText.RoundTrip | gateway/internal/users/handler.go:433-443 | a chat id survives both services if and only if it is not negative |
| ChatIdText.RoundTripNegative | gateway/internal/users/handler.go:433-443 | every negative one arrives as 0 |
| ChatIdText.SendNotificationBatch | users-service/internal/notifysystem/notifysystem.go:135-153 | each message of a batch keeps its own bytes and, if not negative, decodes to its own chat id, in order |
| Slots.GetNextSlotTime | users-service/internal/notifysystem/notifysystem.go:72-87 | the computed time is the least slot instant strictly after now |
| Slots.Scheduler | users-service/internal/notifysystem/notifysystem.go:39-69 | each round plans the next slot after the moment it looks at the clock |
| Slots.StrictlyLater | users-service/internal/notifysystem/notifysystem.go:46-69 | when timers never fire early, planned runs strictly increase |
| Slots.NextPlanExactly | users-service/internal/notifysystem/notifysystem.go:46-69 | a round is followed by the very next slot if and only if it ends before that slot |
| Slots.NoneMissed | users-service/internal/notifysystem/notifysystem.go:46-69 | if every round does, no slot instant is missed |

## Left out

- ASCII: lower-casing is that of ASCII letters and a word's first byte is its first character; other scripts are not modelled.
- Widths: only the itoa/atoi pair has int64 arithmetic; session counters, positions, serials and the worker counter are unbounded integers.
- Atomicity of the session: messages of one user are handled one at a time; concurrent handlers of one user would interleave their reads and writes of the hash.
- JSON: encoding and decoding a record is taken as the identity; the three records share no field name, so decoding one as another is taken as the zero value.
- Words.RpcGetWordsWithTarget: the request's own limit is taken as 0, because the gateway never sends one.
- ShiritoriGame.NoRepeat: assumes unique word texts over one dictionary; Words.ReplyDiffers gives what a duplicate changes.
- ShiritoriGame.AcceptedExactly: assumes a configured GET_LIMIT of at least 1; Words.BotReply covers 0.
- TaskCache.ServedIsCurrent: requests are serialised and Redis succeeds; sharing one lookup between simultaneous reads is not modelled, and a whole-level read (negative position) answers an arbitrary list.
- CacheThreshold.CachesExactly: assumes a positive task TTL; the client library takes 0 as no expiry.
- AnswerReplay.ThemesExactlyOnce: excludes failing row updates, whose effect on delivery AnswerReplay.LostExactly gives; users registered or deleted during a replay are not modelled.
- RateLimiter.BoundReached: assumes a lifetime of at least two units of the clock, so that a message can fall inside a window.
- RouterRuns.PayloadFitsState: the store itself does not fail, and a hash expires within a handler only while an answer is being generated.
- Router.Server.HandleState: one flag stands for all service calls of a message, and two for what Telegram accepts before and after the store is updated.
- Slots.NoneMissed: slots are hours of a UTC day without leap seconds.
- Notification paging: the cursor is a chat id compared with a serial id, so neither completeness nor termination is claimed.
- GetWords, NewWordsBulk, DelWords, registration and profile queries: single statements without branching.
- Speech recognition, audio and text generation, the circuit breaker, retries, Telegram, gRPC, TLS, Kafka and Redis clients, logging, object pools and keyboards.
