# ia-rag-api relay: a Dafny model

This project models the core of the `ia-rag-api` WhatsApp relay. The relay keeps one
WhatsApp connection per agent and answers inbound messages through a
retrieval-augmented answer service. Owners and customers can pause the automatic
answers with a time-boxed block. An HTTP API manages accounts, agents and WhatsApp
Cloud API configurations, and a webhook answers Cloud API notifications.

Each source component is one Dafny module:

- `Common`: the JavaScript values the handlers read (truthiness, nullish values, property reads that may throw) and the string built-ins they use (`trim`, `toLowerCase`, `split`, `join`, `includes`, the digit filter).
- `BlockLedger`: the `blocked_numbers` table as a sequence of rows, the duration grammar, and the block, unblock, check, info and list operations.
- `HumanRequest`: the eleven hand-off patterns as token sequences, with a matcher for them.
- `CredentialStore`: the MongoDB session document store and its two variants.
- `Connection`: the per-agent registry of statuses, sockets and connect locks, where statuses and sockets are keyed by the id's text and locks by the id itself; `startWhatsApp`; the `connection.update` handler; the sweeps; the status and connect endpoints.
- `Inbound`: the `messages.upsert` handler. This covers echo markers, owner takeover, the `###` and `##ativar` commands, hand-off, silencing, and forwarding with a bounded per-sender history.
- `Restore`: the start-up restoration loop.
- `Metrics`: the connection metrics.
- `Prompt`: the message list sent to the chat-completion service.
- `AskRoute`: the `/perguntar` route and its per-agent conversations.
- `BearerAuth`: the JWT middleware.
- `Sql`: placeholder counting for the statements built from request keys.
- `Agents`, `MetaConfig`, `Accounts`, `Webhook`: the HTTP controllers.
- `ReadyFlag`: the standalone whatsapp-web.js client.

Everything the code gets from outside becomes an input to a pure function. That covers the database, the transport, the answer service, the clock, random bytes, bcrypt and JWT. A thrown error is `None`, or an explicit failure constructor.

An operation that runs two statements takes a `Db` value saying which of them answered, since the code's one `catch` covers both. The `agent` and `meta` tables are sequences of rows, so the read and delete routes state which rows they see and which they leave.

## Model

| member | source | states |
|---|---|---|
| BlockLedger.UnitMs | src/controllers/blockedNumbers.js:11-23 | A unit is accepted exactly when it is one of hr, h, d, a, ano, anos; hours, days and years give 3 600 000, 86 400 000 and 31 536 000 000 ms. |
| BlockLedger.ParseDuration | src/controllers/blockedNumbers.js:4-24 | An accepted duration is at least two characters, opens with a digit, closes with a unit letter, and is a whole number of hours. |
| BlockLedger.ParseDurationSound | src/controllers/blockedNumbers.js:4-24 | Every accepted duration is digits followed by a unit, matched in full, and its value is count times the unit's milliseconds. |
| BlockLedger.ParseDurationComplete | src/controllers/blockedNumbers.js:4-24 | Every text of that shape is accepted, with exactly that value. |
| BlockLedger.ParseDurationRoundTrip | src/controllers/blockedNumbers.js:4-24 | A rendered count followed by any unit spelling parses back to the count times the unit. |
| BlockLedger.ParseHours | src/controllers/blockedNumbers.js:12-14 | "2h" is two hours in milliseconds. |
| BlockLedger.ParseDays | src/controllers/blockedNumbers.js:15-16 | "10d" is ten days in milliseconds. |
| BlockLedger.ParseYears | src/controllers/blockedNumbers.js:17-20 | "1a" is a 365-day year in milliseconds. |
| BlockLedger.CountIsNoDuration | src/controllers/blockedNumbers.js:4-24 | A count without a unit is refused. |
| BlockLedger.ParseDurationIgnoresCase | src/controllers/blockedNumbers.js:5-9 | Upper-case units are accepted, as the `i` flag and `toLowerCase` intend. |
| BlockLedger.ParseDurationRejects | src/controllers/blockedNumbers.js:5-6 | "0h" parses to zero; text without a count or without a unit is refused. |
| BlockLedger.WithoutPair | src/controllers/blockedNumbers.js:29-32 | The pair delete removes exactly the pair's rows and keeps every other row. |
| BlockLedger.Sweep | src/controllers/blockedNumbers.js:88-91 | The expiry sweep keeps exactly the rows whose end is strictly after now. |
| BlockLedger.SweepKeepsLive | src/controllers/blockedNumbers.js:82-91 | Sweeping at `now` never changes which pairs are blocked at `now`. |
| BlockLedger.Block | src/controllers/blockedNumbers.js:26-60 | A failed pair delete changes nothing. Otherwise the old row of the pair is gone, and a row ending `now + ms` is added exactly when the duration parses to a positive value and the insert succeeds. Other pairs are untouched, and one row per pair is preserved. |
| BlockLedger.Unblock | src/controllers/blockedNumbers.js:62-75 | Reports true exactly when a row of the pair existed, and leaves none. |
| BlockLedger.IsBlocked | src/controllers/blockedNumbers.js:78-98 | Blocked exactly when the lookup and the sweep both succeed and a row of the pair ends strictly after now. When both succeed the expired rows are swept; when either fails, the answer is "not blocked" and the table is as it was. |
| BlockLedger.GetBlockInfo | src/controllers/blockedNumbers.js:101-116 | Returns a live row of the pair exactly when a check would report the pair blocked. |
| BlockLedger.GetBlockInfoUnique | src/controllers/blockedNumbers.js:101-116 | With one row per pair, the row returned is the pair's only live row. |
| BlockLedger.SortNewestFirst | src/controllers/blockedNumbers.js:128-133 | `ORDER BY blocked_at DESC`: the rows are a permutation of the input, newest first. |
| BlockLedger.ListBlocked | src/controllers/blockedNumbers.js:119-140 | A failed sweep changes nothing and lists nothing. A succeeding sweep drops the expired rows; the listing is then a permutation of the agent's live rows, newest first, or empty when the query fails. |
| BlockLedger.LiveForSweep | src/controllers/blockedNumbers.js:123-133 | Sweeping first does not change which of the agent's rows are listed. |
| BlockLedger.UnparsedBlockClears | src/controllers/blockedNumbers.js:26-60 | Once the pair delete succeeds, a duration that does not parse or an insert that fails leaves the pair with no live block. |
| BlockLedger.BlockThenCheck | src/controllers/blockedNumbers.js:26-98 | After a successful block, a check at any instant reports blocked exactly before the block's end. |
| BlockLedger.CheckIsStable | src/controllers/blockedNumbers.js:78-98 | A second check at the same instant agrees with the first. |
| BlockLedger.BlockThenUnblock | src/controllers/blockedNumbers.js:26-75 | Unblocking after a block reports a removal and leaves the pair unblocked. |
| BlockLedger.InvalidDurationUnblocks | src/controllers/blockedNumbers.js:29-38 | After a succeeding pair delete, a malformed duration sets no block and still removes the pair's existing one. |
| BlockLedger.FailedSweepHidesBlock | src/controllers/blockedNumbers.js:82-97 | When the sweep after a successful lookup fails, the catch reports "not blocked" even for a pair with a live row. |
| BlockLedger.FailedListStillSweeps | src/controllers/blockedNumbers.js:123-139 | A listing whose query fails after its sweep returns nothing, but the sweep stands: a later listing returns the same rows. |
| HumanRequest.PhraseFound | src/controllers/blockedNumbers.js:145-159 | A pattern of words joined by `\s+` is found wherever its words occur joined by single spaces. |
| HumanRequest.DetectHumanRequest | src/controllers/blockedNumbers.js:142-160 | A text is a hand-off request exactly when some pattern matches somewhere in its lower-cased form, and such a text trims to twelve characters or more. |
| HumanRequest.PhrasePatternDetected | src/controllers/blockedNumbers.js:142-160 | Any text whose lower-cased form contains the phrase of a pattern is a hand-off request. |
| HumanRequest.AtendenteHumanoDetected | src/controllers/blockedNumbers.js:150 | "atendente humano", in any letter case, is a hand-off request. |
| HumanRequest.MeTransfereDetected | src/controllers/blockedNumbers.js:155 | "me transfere", in any letter case, is a hand-off request. |
| HumanRequest.MatchLength | src/controllers/blockedNumbers.js:145-157 | Every text a pattern matches is at least as long as the pattern's shortest match. |
| HumanRequest.PatternMinLen | src/controllers/blockedNumbers.js:145-157 | Each of the eleven patterns needs at least twelve characters. |
| HumanRequest.ShortTextIsNotARequest | src/controllers/blockedNumbers.js:142-160 | A message that trims to fewer than twelve characters is never a hand-off request. |
| CredentialStore.Spread | src/controllers/mongo-auth-store.js:17-22 | `{...data}` copies an object's own fields and an array's indices; values other than objects, arrays and strings add nothing. |
| CredentialStore.ReadData | src/controllers/mongo-auth-store.js:5-13 | The document is found exactly when it exists and the read succeeds. |
| CredentialStore.WriteData | src/controllers/mongo-auth-store.js:15-27 | An upsert writes the one document and no other; a failure or undefined data changes nothing; an `_id` field of the data wins over the id. |
| CredentialStore.RemoveData | src/controllers/mongo-auth-store.js:29-35 | Deletes exactly the one document; a failure leaves the store as it was. |
| CredentialStore.LoadCreds | src/controllers/mongo-auth-store.js:37 | The stored credentials when found, otherwise fresh ones. |
| CredentialStore.KeysGet | src/controllers/mongo-auth-store.js:43-55 | One entry per requested id and no other, each what that id alone reads: null when missing or when its read fails, the stored document for categories other than sync keys. |
| CredentialStore.KeysSet | src/controllers/mongo-auth-store.js:56-66 | Each task writes a truthy value or deletes otherwise, in order; only the named documents can change. |
| CredentialStore.KeysSetUntouched | src/controllers/mongo-auth-store.js:56-66 | A document that no task names keeps its presence and contents. |
| CredentialStore.KeysSetFailingKeeps | src/controllers/mongo-auth-store.js:56-66 | A key whose every operation fails keeps its document. |
| CredentialStore.KeysSetLastWriter | src/controllers/mongo-auth-store.js:56-66 | The last task naming a key decides its document: a truthy value is written, anything else deletes. |
| CredentialStore.SetThenGet | src/controllers/mongo-auth-store.js:43-66 | Set then get of one key gives back the written value with its `_id`, or null for a falsy value. |
| CredentialStore.StoredObject | src/controllers/mongo-auth-store.js:19-23 | An object without its own `_id` is stored as itself plus the id. |
| CredentialStore.WriteReplaces | src/controllers/mongo-auth-store.js:19-23 | The written document does not depend on what was stored before; old fields are gone. |
| CredentialStore.SaveCreds | src/controllers/mongo-auth-store.js:69-71 | Writes the session's document and no other. |
| CredentialStore.ClearCreds | src/controllers/mongo-auth-store.js:72-74 | Deletes the session's document and no other. |
| CredentialStore.ClearKeepsKeys | src/controllers/mongo-auth-store.js:72-74 | Clearing the credentials leaves every signal key where it was. |
| CredentialStore.SaveThenLoad | src/controllers/mongo-auth-store.js:37-71 | Loading after a save gives back the saved credentials with the document id. |
| CredentialStore.ClearThenLoad | src/controllers/mongo-auth-store.js:37-74 | Loading after a clear falls back to fresh credentials. |
| CredentialStore.SessionIdOrDefault | src/controllers/mongoAuthState.js:23 | The session id defaults to "default". |
| CredentialStore.SaveCredsWithBackup | src/controllers/mongoAuthState.js:60-96 | The backup file of the session gets the credentials and no other file changes; the collection gets the ordinary save. |
| CredentialStore.BackupSurvivesStoreFailure | src/controllers/mongoAuthState.js:93-96 | A failed collection write is caught inside the write, so the backup is still written. |
| CredentialStore.ConnectMongo | src/controllers/mongoAuthState.js:14-21 | A client is created only when there is none yet. |
| CredentialStore.ClientCreatedOnce | src/controllers/mongoAuthState.js:14-21 | However many calls are made, the client is created at most once and then reused. |
| Connection.Precheck | src/controllers/whatsapp.js:145-190 | Records which early exit applies: no Mongo URL, a failed lookup, or a missing session when new sessions are not allowed. |
| Connection.StartAsWritten | src/controllers/whatsapp.js:132-216 | The code as written: after a timed-out creation, the retry is scheduled with the connect lock still held. |
| Connection.Start | src/controllers/whatsapp.js:132-216 | An active socket is returned and a held lock turns the call away. Otherwise the lock never outlives the call, and a socket is registered as `iniciando` exactly when creation succeeds. Only a timed-out creation schedules the next attempt, 5 s later. |
| Connection.StartVersionsAgree | src/controllers/whatsapp.js:556-566 | The two versions differ only in the lock a timed-out creation leaves. |
| Connection.TimedOutRetryIsRefused | src/controllers/whatsapp.js:138-141 | As written, the scheduled retry always meets the leftover lock and returns null. |
| Connection.TimedOutRetryRuns | src/controllers/whatsapp.js:556-566 | With the lock released, the retry gets through and creates the socket. |
| Connection.StartIsIdempotent | src/controllers/whatsapp.js:133-136 | A second start returns the first start's socket and changes nothing. |
| Connection.StoreWrittenDocHasNoSessionData | src/controllers/whatsapp.js:164-165 | A document the store wrote from credentials without a `data` field is not taken for a session. |
| Connection.Delay | src/controllers/whatsapp.js:258 | The backoff is `2000 * 2^attempt`, capped at 30 s. |
| Connection.ClassifyClose | src/controllers/whatsapp.js:246-270 | A close is classified as replaced (440), logged out (401), reconnect while attempts remain (at most ten), or give up. |
| Connection.OnUpdate | src/controllers/whatsapp.js:218-272 | `open` resets the attempt counter and records `conectado`. A QR alone records `qr` with its image and changes nothing else. A close always drops the socket under the stringified id, and clears the credentials exactly on logout. A replaced close also drops the lock under the raw id; only other closes schedule a restart, and they keep the lock. |
| Connection.TerminalCloses | src/controllers/whatsapp.js:246-255 | A replaced connection and a logout are never restarted; a logout ends as `deslogado` without a lock. |
| Connection.OtherClosesRetry | src/controllers/whatsapp.js:256-269 | Any other close restarts the agent with the backoff delay while attempts remain, and otherwise ends in `erro` with the lock released. |
| Connection.OpenResetsBackoff | src/controllers/whatsapp.js:228-262 | After `open`, the next close waits the base delay again. |
| Connection.BackoffSchedule | src/controllers/whatsapp.js:256-262 | Back-to-back closes wait 2, 4, 8 and 16 s, then 30 s six times: ten restarts. |
| Connection.DelayCapped | src/controllers/whatsapp.js:258 | From the fifth attempt on, the delay is the cap. |
| Connection.DelayMonotone | src/controllers/whatsapp.js:258 | The delay never shrinks from one attempt to the next. |
| Connection.SweepStatuses | src/controllers/whatsapp.js:58-72 | Drops exactly the `desconectado` statuses of agents without a socket. |
| Connection.SweepLocks | src/controllers/whatsapp.js:74-89 | Drops exactly the locks older than five minutes. |
| Connection.LockSweepBoundary | src/controllers/whatsapp.js:79-83 | A lock exactly five minutes old survives; one a millisecond older is dropped. |
| Connection.StaleLockSweptThenStart | src/controllers/whatsapp.js:74-141 | The lock left by a timed-out creation is cleared by a sweep more than five minutes later, after which a start proceeds. |
| Connection.GetStatus | src/controllers/whatsapp.js:128-130 | Without an id, the whole map; with one, that agent's entry or a disconnected default. |
| Connection.StatusFollowsUpdates | src/controllers/whatsapp.js:218-234 | After `open` the status read back is `conectado`; after a QR alone it is `qr` with the image. |
| Connection.Connect | src/controllers/whatsapp.js:569-615 | A missing body is a 500; a 400 exactly when `id` is falsy. A start of that same id is launched only for an agent with neither a socket (looked up by the stringified id) nor a lock (looked up by the raw id), after recording `iniciando`. |
| Connection.ConnectMirrorsStartGuards | src/controllers/whatsapp.js:578-604 | For a truthy id, the endpoint launches exactly when the start's guards let it through, and such a start is never turned away. |
| Connection.LockIsPerValue | src/controllers/whatsapp.js:132-143 | The lock map compares ids by value while the socket and status objects compare their text: a lock under the number 5 does not stop a start under the string "5". |
| Inbound.PurgeMarkers | src/controllers/whatsapp.js:286-291 | Keeps exactly the echo markers at most ten seconds old. |
| Inbound.Mark | src/controllers/whatsapp.js:112-116 | The id of a sent message is remembered when the transport gives one. |
| Inbound.Send | src/controllers/whatsapp.js:112-126 | A reply changes only the echo markers, adding at most the reply's id. |
| Inbound.SameNumberSymmetric | src/controllers/whatsapp.js:306-311 | The owner-number match is symmetric. |
| Inbound.DigitlessNumberMatchesAll | src/controllers/whatsapp.js:306-311 | An owner number without digits matches every sender. |
| Inbound.CommandArgument | src/controllers/whatsapp.js:344-347 | Recognises the block command: `###`, optional white space, then an argument that is empty or digits with an optional unit. |
| Inbound.CommandArgumentComplete | src/controllers/whatsapp.js:344-347 | Every text of that shape is a block command with that argument. |
| Inbound.BareCountCommandUnblocks | src/controllers/whatsapp.js:344-368 | `###5` from the owner is a command, but its argument is no duration, so it deletes the block and sets none. |
| Inbound.Window | src/controllers/whatsapp.js:501-503 | The history sent is a suffix of at most ten turns, the whole history when shorter. |
| Inbound.ForwardAsWritten | src/controllers/whatsapp.js:494-536 | The code as written: a failed call leaves the untrimmed push in the stored history. |
| Inbound.Forward | src/controllers/whatsapp.js:494-536 | Sends the last ten turns ending with this question, and stamps the sender. A reply stores the sent turns plus the reply; a failure stores the sent turns for a sender that had a history and nothing for a new one. |
| Inbound.ForwardVersionsAgree | src/controllers/whatsapp.js:494-536 | While the stored history is shorter than ten turns, the code as written and the corrected forward agree. |
| Inbound.FailedForwardGrowsHistory | src/controllers/whatsapp.js:497-499 | As written, each failed call adds a turn to a stored history. |
| Inbound.FailedForwardBreaksBound | src/controllers/whatsapp.js:497-535 | As written, an eleven-turn history and one failure store twelve turns. |
| Inbound.ForwardKeepsBound | src/controllers/whatsapp.js:494-524 | Forwarding keeps every stored history within eleven turns. |
| Inbound.SweepHistories | src/controllers/whatsapp.js:41-56 | Forgets exactly the senders last used more than two hours ago, in both maps. |
| Inbound.RecentHistorySurvives | src/controllers/whatsapp.js:45-50 | A history used within two hours survives unchanged. |
| Inbound.TextOf | src/controllers/whatsapp.js:336-338 | The conversation text, else the extended text. |
| Inbound.BlockCommandStep | src/controllers/whatsapp.js:347-399 | Without an owner, or from anyone else, the command is only answered. From the owner it blocks for the given duration, or 24hr by default. |
| Inbound.UnblockStep | src/controllers/whatsapp.js:401-433 | Without an owner nothing happens; anyone else is answered; the owner's command unblocks. |
| Inbound.HandoffStep | src/controllers/whatsapp.js:435-463 | Blocks the sender for 24hr on the system's behalf and sends the hand-off text when both statements of the block succeed, the fallback otherwise. |
| Inbound.OwnSide | src/controllers/whatsapp.js:293-334 | An owner message is an echo exactly when its id is a marker, which is then used up; nothing is sent. |
| Inbound.Gate | src/controllers/whatsapp.js:465-536 | Forwards exactly when the sender is not found blocked, where a failing ledger statement counts as not blocked. Uses the corrected forward. |
| Inbound.Incoming | src/controllers/whatsapp.js:336-536 | A message reaches the answer service exactly when it is served, with the request the corrected forward builds. |
| Inbound.Handle | src/controllers/whatsapp.js:276-554 | Owner messages are never answered; a message reaches the service exactly when served; only forwarding, in its corrected form, touches histories. |
| Inbound.EchoIsConsumed | src/controllers/whatsapp.js:293-300 | An echo within the window is dropped once and its marker used up. |
| Inbound.StaleMarkerIsNoEcho | src/controllers/whatsapp.js:286-300 | A marker older than the window suppresses nothing. |
| Inbound.MarkersStayFresh | src/controllers/whatsapp.js:286-291 | Every surviving marker is at most ten seconds old, apart from the reply just sent. |
| Inbound.TakeoverExactly | src/controllers/whatsapp.js:302-326 | A non-echo owner message blocks the other party exactly when the takeover conditions hold. |
| Inbound.TakeoverBlocksForADay | src/controllers/whatsapp.js:313-319 | A takeover writes a 24-hour row on the owner's behalf. |
| Inbound.NoTakeoverOfGroupsOrSelf | src/controllers/whatsapp.js:309-313 | Groups, the status broadcast and the owner's own number are never taken over. |
| Inbound.BareCommandBlocksForADay | src/controllers/whatsapp.js:344-368 | A bare `###` from the owner blocks the sender for a day. |
| Inbound.CommandBeforeHandoff | src/controllers/whatsapp.js:344-435 | A block command is handled as one, even when it would also read as a hand-off request. |
| Inbound.HandoffBeforeSilence | src/controllers/whatsapp.js:435-466 | A hand-off request is handled even when the sender is blocked. |
| Inbound.HandleHandsOff | src/controllers/whatsapp.js:435-463 | A hand-off request that is not a command is handled by the hand-off branch, on the state left after the marker purge. |
| Inbound.HandoffSilencesLater | src/controllers/whatsapp.js:435-489 | After a hand-off, the sender's later messages within a day are not served. |
| Inbound.BlockedIsNotServed | src/controllers/whatsapp.js:465-489 | A served message implies the ledger check did not fully answer. When it did not, a live block makes no difference: the message is served exactly as with an empty ledger. |
| Inbound.HandleKeepsHistoryBound | src/controllers/whatsapp.js:494-536 | Handling any message, with the corrected forward, keeps every stored history within eleven turns. |
| Inbound.HistorySharedAcrossAgents | src/controllers/whatsapp.js:496-497 | Histories are keyed by sender alone, so two agents send the same history. |
| Restore.FirstPresent | src/controllers/restoreSessions.js:17 | The `??` chain yields the first field that is neither null nor undefined. |
| Restore.AgentId | src/controllers/restoreSessions.js:14-19 | A falsy entry is stringified; otherwise its `id`, the other id fields in order, or its JSON text. |
| Restore.AgentIds | src/controllers/restoreSessions.js:14-19 | One id per agent, in order. |
| Restore.RestoreAll | src/controllers/restoreSessions.js:7-45 | A failed lookup, or one that gives null or no list, restores nothing. For a list, the values started are the agents' ids in order, and there is one pause per start that was not rejected. |
| Restore.LoopStartsEachInOrder | src/controllers/restoreSessions.js:24-36 | Every agent is started exactly once, in order, with one pause for each start that was not rejected. |
| Restore.PausesFollowStarts | src/controllers/restoreSessions.js:27-34 | Every pause directly follows a start and lasts ten seconds. |
| Restore.DatabaseRowsUseTheirIds | src/controllers/restoreSessions.js:14-19 | A database row `{ id: n }` is started under the number `n` itself, whose text is the key `n`. |
| Restore.NullListRestoresNothing | src/controllers/restoreSessions.js:10 | A null list restores nothing. |
| Metrics.LabelOf | src/controllers/metricsController.js:63 | The label is the status when non-empty, else "unknown"; never empty. |
| Metrics.Tally | src/controllers/metricsController.js:64 | Counting a label opens its bucket at the end when new and raises the total by one. |
| Metrics.TallyCounts | src/controllers/metricsController.js:64 | Counting a label adds one to its bucket and to no other. |
| Metrics.ConnectionMetrics | src/controllers/metricsController.js:55-68 | The total is the number of entries. The buckets are distinct and positive, listed in the order their labels first appear, their counts add up to the total, and each count is the number of entries with that label. |
| Metrics.RegistryHasNoUnknown | src/controllers/metricsController.js:56-65 | Entries taken from the status registry never land in "unknown". |
| Prompt.Question | src/controllers/ia.js:14-23 | The user message contains the context and ends with the question. |
| Prompt.Messages | src/controllers/ia.js:3-23 | The instruction, then the history unchanged, then the user question. |
| Prompt.QuestionRecoverable | src/controllers/ia.js:16-22 | Context and question can be read back from fixed places in the message. |
| Prompt.EmptyHistoryTwoMessages | src/controllers/ia.js:3-23 | With the default empty history, exactly two messages are sent. |
| Prompt.MessagesExtend | src/controllers/ia.js:12-14 | Extra history turns are inserted just before the question. |
| AskRoute.Ask | src/routes/perguntarRouter.js:9-38 | Both fields are required. An id naming an inherited object member is a 500 that stores nothing. Otherwise the prompt uses the agent's conversation as it stood, and success appends question and answer in order. Failure is a 500 that adds nothing, and other agents' conversations are untouched. |
| AskRoute.AskBody | src/routes/perguntarRouter.js:10-15 | A 400 exactly when `pergunta` or `id` is falsy. |
| AskRoute.CallerFieldsIgnored | src/routes/perguntarRouter.js:10 | The caller's own `userId` and `historico` fields change nothing. |
| AskRoute.SecondQuestionSeesFirst | src/routes/perguntarRouter.js:18-30 | The second prompt to an agent carries the first question and answer. |
| AskRoute.ConversationGrows | src/routes/perguntarRouter.js:29-30 | Each answered question adds two turns; nothing bounds a conversation. |
| AskRoute.InheritedIdNeverAnswered | src/routes/perguntarRouter.js:18-27 | Questions under an id such as `toString` never change any conversation. |
| BearerAuth.Coalesce | src/config/auth.js:23 | `a ?? b`: `b` exactly when `a` is null or undefined. |
| BearerAuth.UserIdOf | src/config/auth.js:23 | `user_id`, else `id`, else null; a nullish payload throws. |
| BearerAuth.Authenticate | src/config/auth.js:3-31 | A missing header is "no token"; anything other than two space-separated parts with scheme `bearer` (any case) is "bad format"; a token that fails verification is "bad token"; otherwise the payload and user id. |
| BearerAuth.SplitAround | src/config/auth.js:13 | Splitting `a b`, both parts free of spaces, gives exactly `[a, b]`. |
| BearerAuth.BearerTokenPasses | src/config/auth.js:13-24 | A well-formed bearer header whose token verifies passes with the verified payload. |
| BearerAuth.UserIdChoice | src/config/auth.js:23 | The user id is `user_id` when present, else `id`, else null. |
| BearerAuth.SpacedTokenRejected | src/config/auth.js:13-15 | A token with a space in it is a format error. |
| Sql.MarksOfJoin | src/controllers/agentController.js:63-64 | Joining with ", " adds no placeholder. |
| Sql.Placeholders | src/controllers/agentController.js:64 | One "?" per key. |
| Sql.Assignments | src/controllers/agentController.js:110-112 | One `key = ?` per key, each adding one placeholder. |
| Agents.WithUserId | src/controllers/agentController.js:53 | `{...body, user_id}`: an existing key is overwritten in place, otherwise added last; no other field changes. |
| Agents.Insert | src/controllers/agentController.js:63-67 | One parameter per key, in key order, and one placeholder per parameter plus any the keys carry. |
| Agents.Update | src/controllers/agentController.js:110-118 | The values in key order, then the id and the caller; placeholders line up the same way. |
| Agents.GetAgents | src/controllers/agentController.js:3-21 | Reads with the caller's id as the one parameter; the data is exactly the caller's rows in table order (none for a null caller id, as `= NULL` matches nothing), or a 500. |
| Agents.GetAgentById | src/controllers/agentController.js:23-50 | The first of the caller's rows with that id; 404 exactly when there is none; 500 on error. |
| Agents.CreateAgent | src/controllers/agentController.js:52-96 | An empty body is a 400 with no statement. Otherwise the insert of the body with the caller's id; 200 exactly when a row was affected and read back. The read-back selects the new id for the caller, and the new id is reported exactly on success. |
| Agents.UpdateAgent | src/controllers/agentController.js:98-138 | A missing id or empty body is a 400; 404 exactly when no row matched; 200 when one did. |
| Agents.Delete | src/controllers/agentController.js:144-147 | Two placeholders, for the id and the caller. |
| Agents.SelectMine | src/controllers/agentController.js:5-8 | One placeholder, for the caller. |
| Agents.SelectOne | src/controllers/agentController.js:27-30 | Two placeholders, for the id and the caller. |
| Agents.DeleteAgent | src/controllers/agentController.js:140-167 | The table left has exactly the caller's rows with that id removed; 404 exactly when there were none; 500 on error. |
| Agents.TokenUserWins | src/controllers/agentController.js:53 | The inserted row carries the caller's id whatever the body says; every other field is as sent. |
| Agents.InsertLinesUp | src/controllers/agentController.js:63-68 | With ordinary keys, placeholders and parameters agree and the caller's id is among them. |
| Agents.UpdateLinesUp | src/controllers/agentController.js:110-118 | With ordinary keys, one placeholder per field, then the id and the caller. |
| Agents.OthersRowsUntouched | src/controllers/agentController.js:3-167 | Another user's rows are never listed, read or deleted. |
| Agents.DeleteThenGet | src/controllers/agentController.js:140-167 | After a delete, reading the same id as the same caller is a 404. |
| MetaConfig.Hex | src/controllers/metaController.js:28 | Two lower-case hex digits per byte. |
| MetaConfig.UnhexHex | src/controllers/metaController.js:28 | The token's text determines the bytes it was made from. |
| MetaConfig.VerifyTokenShape | src/controllers/metaController.js:28 | Sixteen random bytes give a 32-character lower-case hex token. |
| MetaConfig.WebhookUrl | src/controllers/metaController.js:41-49 | `BASE_URL` followed by `/webhook` when set; otherwise built from the host, with plain http only for localhost; no host throws. |
| MetaConfig.WebhookScheme | src/controllers/metaController.js:44-49 | The scheme is http exactly for a localhost host, and the address ends in `/webhook`. |
| MetaConfig.Insert | src/controllers/metaController.js:30-34 | One parameter per column and one placeholder per parameter, with agent, user, phone id, access token and verify token in their columns; a falsy WABA id is stored as null. |
| MetaConfig.Create | src/controllers/metaController.js:4-69 | Three fields are required, and a second configuration is refused unwritten. Otherwise the insert carries the hex token; 200 exactly when a row was inserted and the address computed. |
| MetaConfig.MissingHostAfterInsert | src/controllers/metaController.js:30-47 | Without a host, the 500 comes after the row was already inserted. |
| MetaConfig.UpdateFields | src/controllers/metaController.js:81-95 | Phone id and token are set when truthy, the WABA id whenever present (null too), in that order. |
| MetaConfig.Update | src/controllers/metaController.js:101-107 | The field values, then the id and the caller; one placeholder each. |
| MetaConfig.UpdateConfig | src/controllers/metaController.js:71-128 | A missing id or nothing to set is a 400 with no statement; 404 exactly when no row matched; 500 on error. |
| MetaConfig.UpdateLinesUp | src/controllers/metaController.js:81-107 | Placeholders and parameters agree, ending with id and caller. |
| MetaConfig.NullWabaIsWritten | src/controllers/metaController.js:88-91 | An explicit null WABA id is written, while empty phone and token are skipped. |
| MetaConfig.GetConfig | src/controllers/metaController.js:130-159 | 404 exactly when no row of the caller has that agent (always, for a null caller id); otherwise 200 with the first such row in table order, showing the selected columns `id`, `agent_id`, `phone_number_id`, `waba_id`, `verify_token` and `created_at`; 500 on error. |
| MetaConfig.OnlyRowFound | src/controllers/metaController.js:135-150 | When the table holds no row of the agent and caller, appending one makes that row the one shown. |
| MetaConfig.TokenCount | src/controllers/webhookController.js:13-18 | The count of rows with a verify token is positive exactly when some row has it. |
| MetaConfig.CreateThenGet | src/controllers/metaController.js:4-69 | A successful creation is then readable by its owner, with the new id, its creation instant and the verify token handed out; a caller without a user id reads back nothing. |
| Accounts.PasswordMatches | src/controllers/authController.js:29-36 | A bcrypt-prefixed value goes to the comparison; anything else must be the same string. |
| Accounts.Login | src/controllers/authController.js:5-61 | Both fields are required. An unknown e-mail and a wrong password both give the same 401. A match gives 200 with the public fields and a token signed over them, never the password; a signing failure is the 500. A token is issued exactly on 200. |
| Accounts.Register | src/controllers/authController.js:63-111 | Fields are required and a taken e-mail is a 409 before any write. The stored password is the hash, with one placeholder per parameter; 201 with the new id. |
| Accounts.RegisterThenLogin | src/controllers/authController.js:5-111 | Registering and then logging in with the same credentials succeeds and shows the same user. |
| Accounts.PlainStoredPassword | src/controllers/authController.js:29-36 | A non-hash stored value accepts exactly that text. |
| Accounts.EmptyStoredPasswordRejects | src/controllers/authController.js:29-43 | A NULL or empty stored password rejects every password. |
| Webhook.Verify | src/controllers/webhookController.js:6-32 | 400 without mode or token. The challenge is echoed exactly when the token belongs to a configuration; 403 otherwise; 500 on error. |
| Webhook.StoredTokenVerifies | src/controllers/webhookController.js:6-32 | Against a stored table, the challenge is echoed exactly when some row carries the token. |
| Webhook.CreatedTokenVerifies | src/controllers/webhookController.js:6-32 | The verify token a successful configuration hands out passes the handshake once its row is stored. |
| Webhook.Extract | src/controllers/webhookController.js:41-52 | Only the first message of the first change of the first entry is read. |
| Webhook.ReadMessage | src/controllers/webhookController.js:46-52 | A message is read exactly when it is truthy and the phone id could be read. |
| Webhook.Handle | src/controllers/webhookController.js:34-107 | A business-account notification is acknowledged first, and anything else is a 404. Only a text message to a configured number reaches the answer service, with an empty history. The answer is posted to the sender from the receiving number. |
| Webhook.EnvelopeReads | src/controllers/webhookController.js:41-50 | What the handler reads of a standard notification. |
| Webhook.OnlyFirstMessage | src/controllers/webhookController.js:50 | Messages after the first are ignored. |
| Webhook.TextMessageAnswered | src/controllers/webhookController.js:54-92 | A text message to a configured number is answered to its sender, with a prompt from its text alone. |
| Webhook.OtherTypesIgnored | src/controllers/webhookController.js:66-69 | Other message types are acknowledged and ignored. |
| Webhook.UnknownNumberIgnored | src/controllers/webhookController.js:59-62 | A number without configuration gets no answer. |
| Webhook.EmptyNotificationIgnored | src/controllers/webhookController.js:41-47 | A notification without messages looks nothing up. |
| ReadyFlag.LastLifecycle | qr.js:17-32 | The last event that moves the flag. |
| ReadyFlag.Step | qr.js:11-39 | A QR code is drawn only while not ready; `ready` sets the flag; disconnect and auth failure clear it; a pong answers exactly `!ping` from someone else while ready. |
| ReadyFlag.Replay | qr.js:9-39 | Over a trace, the flag is set exactly when the last lifecycle event was `ready`; every QR and ping handler sees that flag. |
| ReadyFlag.ReadyAgainAfterDisconnect | qr.js:17-32 | A disconnect clears the flag until the next `ready`, which sets it again. |

## Left out

- Transports and I/O: Baileys sockets, whatsapp-web.js, MongoDB and MySQL drivers, axios and Express are left out. Their answers are inputs, and a thrown error is `None` or a failure constructor.
- Timers: `setTimeout` and `setInterval` are not run. A retry is returned as a scheduled call, and the sweeps are functions of the current time.
- Concurrency: overlapping handler runs, the `Promise.all` parallelism in `keys.get`/`keys.set` and module-level mutation are left out. Each call is applied to the state the previous one left, in issue order.
- `safeSendMessage` retries on 408 or timeout: not modelled. The send is one effect, and its transport id is an input.
- The `BufferJSON` replacer and reviver, and `proto...fromObject`: these are an opaque `decode` function; serialisation is identity.
- bcrypt, JWT verification and signing, and `crypto.randomBytes` are parameters.
- `getOwnerPhone` and `fetchContextoViaPHP` are not part of this model: they are inputs.
- `healthCheck` and the formatting in `getMetrics`: these are floating-point memory and uptime figures.
- Common.ToLower: covers ASCII and Latin-1 upper-case letters only, not full Unicode case mapping.
- Agents.Insert: a body is the sequence of its fields in `Object.keys` order. JavaScript's reordering of integer-like keys is not modelled.
- HumanRequest.DetectHumanRequest: the regular expressions are modelled as token sequences: literal, one-character class (`[ãa]`, `[ôo]`), `\s+` and optional group. No other regular-expression feature is modelled, since the patterns use no other.
- Connection.Start: every failure after the lock is taken is given by the environment in one step. The store, version lookup and socket factory errors are not told apart beyond their message.
- Express routing, the router files and `index.js` wiring are left out. A handler given a nullish body that throws before responding is modelled as no response.
- Inbound: the `No sessions` error logging (whatsapp.js:537-553) is left out, since it only logs.
- Inbound.Gate: uses the corrected `Forward`, not `ForwardAsWritten`, so it does not show the extra turn a failed call leaves in a full history (see Findings).
- Inbound.Incoming: uses the corrected `Forward`, for the same reason.
- Inbound.Handle: uses the corrected `Forward`, for the same reason.
- Inbound.HandleKeepsHistoryBound: holds for the corrected `Forward` only; the code as written breaks it, as `Inbound.FailedForwardBreaksBound` shows.
- Restore.RestoreAll: runs the corrected `Connection.Start`, so a timed-out creation does not leave the lock behind.
- BlockLedger.Block: instants are unbounded integers. The range of `Date` and of the `DATETIME` column, and the precision `parseInt` loses on very long counts, are not modelled.
- AskRoute.Ask: the question is stored and sent as its text, `String(pergunta)`, while the route stores and sends the raw value; a non-string question is therefore not kept as such.
- Connection.GetStatus: the inherited members of the status and socket objects (`toString` and the like) are not modelled there; only the conversation object of `/perguntar` models them.
- Connection.Start: `whatsapp.js` imports `useMongoDBAuthState` from `mongoAuthState.js`, which takes one session id, yet calls it as `(collection, id)` (whatsapp.js:193). The model follows the two-argument store of `mongo-auth-store.js`, where that call lines up. It does not model the one-argument store receiving the collection object as its session id.
- Agents.GetAgentById: MySQL's comparison coercion is reduced to comparing the row id's text with the path id, and the user id by value, where a null or undefined user id matches no row. The same reduction applies to `Agents.DeleteAgent` and `MetaConfig.GetConfig`.
- Agents.UpdateAgent: the effect on the table is not modelled; the reply follows the `affectedRows` the database reports.

## Findings

| source | as written | input that shows it | evidently intended | confidence | as-written member | corrected member |
|---|---|---|---|---|---|---|
| src/controllers/whatsapp.js:556-566 | A socket creation that fails with "Timed Out" schedules `startWhatsApp(id, …, attempt + 1)` in 5 s but keeps the connect lock taken at line 143; only the other branch deletes it. | First start of an agent with no lock, where creation throws "Timed Out": the retry 5 s later finds `connectingAgents.has(id)` and returns null. The agent stays down until the five-minute lock sweep. | Release the lock before scheduling the retry, so the retry can run. | not executed | Connection.StartAsWritten (with Connection.TimedOutRetryIsRefused) | Connection.Start (with Connection.TimedOutRetryRuns) |
| src/controllers/whatsapp.js:497-535 | The user turn is pushed onto the stored history array itself (line 499), before trimming to ten. When the answer service fails, the catch never trims or stores, so the stored array keeps the extra turn. | A sender with an eleven-turn history whose next call fails ends with twelve turns stored. Each further failure adds one more. | The stored history stays within ten turns plus the reply; a failed call keeps the user turn, but only within the ten-turn window. | not executed | Inbound.ForwardAsWritten (with Inbound.FailedForwardBreaksBound) | Inbound.Forward (with Inbound.ForwardKeepsBound, Inbound.ForwardVersionsAgree, Inbound.HandleKeepsHistoryBound) |
