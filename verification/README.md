# Verification model of the messaging platform's stateful services

The platform is a set of Rust services around a chat pipeline. Five of them keep state whose
invariants span many handlers and every interleaving of them, and this project models those five and
proves what they keep. Databases, Redis and Kafka appear as tables, maps with deadlines and
append-only logs whose operations succeed or fail; ids are opaque and the clock counts whole seconds.

Each component appears in up to three forms.

- **Functions on the state** (`Commit`, `Sweep`, `Touch`, `Upsert`, `SpamCount`, `Stepped`, ...) say
  what one statement or one locked block does.
- **A class** with the service's fields holds the handlers themselves, as methods that update the
  fields step by step, proved against those functions.
- **A machine** (`State`, `Event`, `Enabled`, `Apply`, `Run`) cuts the handlers at their suspension
  points, so that a run is any interleaving of any number of calls, background tasks and failures.
  The main theorems quantify over all runs.

## What is proved, by component

**Presence service** (`PresenceTypes`, `PresenceCache`, `RedisStore`, `PresenceMachine`,
`PresenceIndex`, `PresenceBatch`, `PresenceTiming`, `PresenceReader`, `PresenceAgreement`,
`PresenceStores`, `PresenceService`). An update reads the clock
first and takes the write guard much later, so commits reach the in-memory map with stamps in any order
while a cleanup task sweeps with a stamp of its own. In every interleaving, from the present on, the live
entries of the map are exactly the last commits that are still live (`LiveView`), because no sweep and
no commit can remove an entry that outlives every stamp seen so far (`LiveDeviceIsKept`). Every entry is
described by the commit that opened its current life and the last one (`EntriesExplained`). The guard
spans commit, broadcast and publish, hence the Kafka log is the commit sequence minus failed publishes
(`KafkaFollowsCommits`) and a subscriber's stream follows its user's commits (`StreamsFollowCommits`).
Redis and the map show the same of a device whose updates do not overlap or fail, in every run of
everything else, and the exact exception is a live device whose last update lost the user's index set
(`PresenceStores.StoresAgreeIff`).

**Gateway** (`Gateway`, `GatewayMachine`). The connection registry under connects, heartbeats, cleanups
and disconnects, with receive loops that outlive their handler: no connection outlives the disconnect
step of its own handler, staleness is bounded, and two schedules show what duplicate device ids cost.

**Message pipeline** (`Processor`, `MessageProcessor`, `Fanout`, `Pipeline`, `Recipients`). Many sockets, one gateway,
one processor: per conversation, what a connection is queued is a subsequence of what was forwarded; a
connection registered throughout misses nothing; unread counts and delivery rows are conserved.

**Moderation** (`Moderation`, `ModerationMachine`, `ModerationLimits`, `ModerationService`). A pigeonhole
over whole runs: the 24-hour duplicate check turns the one-hour report count into a count of users.

**Encryption** (`EncryptionTable`, `Ratchet`, `RatchetWitness`). The session table refines its log of stores
and deletes; two ratchets agree on their keys after any number of rounds.

## Where the code and the statements about it differ

The model follows the code. Where a stronger reading of the design fails, a lemma names a run that
breaks it and another says exactly when it holds.

- *Newest update.* A request that read the clock early and commits late overwrites a newer one
  (`LateCommitHidesNewer`). In every reachable state the map shows the last commit among those still live,
  at every later time, exactly when no live commit of the device has a later stamp than its last
  (`ShowsLastLiveIff`), and a commit breaks this exactly when it overwrites a live entry with a later stamp
  (`CommitKeepsLastLiveIff`).
- *Staleness.* An entry is under 360 seconds old in all runs exactly when commits follow their clock
  reading by less than 300 seconds (`StalenessBoundIff`); the code sets no such limit.
- *Index set.* `sadd` and `expire` are two commands, and the index can expire between them
  (`LapseWitness`, `HiddenDeviceWitness`). Over whole histories a live key is indexed exactly when its last
  update did not lose the index (`IndexedIff`), and in every run a reader of Redis sees a device as memory
  has it exactly when the last command of its last update came in time or the value is no longer live
  (`PresenceStores.StoresAgreeIff`). Commands that share an instant always come in time
  (`PromptRunIsInTime`).
- *Duplicate devices.* A heartbeat renews only the first connection of its device, so another one can
  be evicted while its own client is punctual (`DuplicateDeviceIsEvicted`). A session is safe from this,
  whatever follows, exactly when its user had no connection for the device at its connect
  (`PunctualIsSafeIff`). The disconnect step removes by device id, so the late disconnect of an evicted
  session drops its successor (`LateDisconnectDropsReconnect`); what it removes is exactly the connections
  of its user and device (`DisconnectRemoves`).
- *Recipients.* Comments at `gateway/src/main.rs:333-334` and `:462-463` speak of the participants of a
  conversation; the loops send to every connection of every other user (`NonMemberIsQueued`). From
  the start of a broadcast, while nobody else connects and the members stay, members alone receive the
  message exactly when every user in the registry is the sender or a member (`OnlyMembersIff`).
- *Automatic ban.* Target types and statuses are stored as `User` and `Resolved`
  (`moderation/src/main.rs:200`, `:298`) and compared with `user` and `resolved` (`:293`, `:554`).
  `Rendering` is that choice. The safety theorems hold with either; a ban can happen exactly when the
  stored text is the lower-case one (`BanReachableIff`), so as written none ever does.
- *One reporter.* The duplicate check and the insert are two statements. Five overlapping requests of
  one reporter all pass the check and ban the target on one word (`RacingReporterBansAlone`). Repeated
  reports lie a day apart exactly when each insert still finds no recent report of its complaint
  (`SpacedIffClean`), and the hourly count is a count of users exactly when none of them is twice in the
  hour (`CountIsReportersIff`). The ban theorems ask for such inserts on the banned target only, which
  holds whenever one complaint's check and insert are not split (`SerialRunIsClean`).
- *Commit order.* The row with the greatest `updated_at` need not be the last one committed
  (`LastCommittedIsNotNewest`); it is exactly when no standing store for the pair has a later time
  (`NewestIsCurrentIff`).
- *Receiving chain.* The ratchet step renews root and sending chain only, while section 2.3 of Signal's
  Double Ratchet Algorithm also renews the receiving chain. After a round the other side's messages open
  exactly when the new sending chain derives the first receiving chain's message key
  (`RoundsLeaveReceiverBehind`), and that can fail (`RoundSeparates`).

## Assumptions

- Presence: one clock is shared by the service and Redis; a failed publish appends nothing; a missing
  value in the answer to `MGET` fails the lookup, since the caller asks for plain strings.
- Gateway: the disconnect block is one atomic step, although `gateway/src/main.rs:214-219` calls `remove`
  while it still holds the entry's guard; one cleanup pass is one step. `device_id` is moved into the
  receive loop at line 201 and used again at lines 215 and 223: the same value is taken in all places.
- Pipeline: Kafka keeps one order per conversation key; a failed append leaves nothing in the log; a
  failed booking may or may not have been applied. The unread `UPDATE` at
  `messaging/src/main.rs:148-162` binds its arguments in another order than its placeholders, and the
  participant list is moved at line 145 and used again at line 171: the placeholder names and one shared
  list are taken as the intent. The gateway is taken to parse the processed message, although its
  envelope type derives no deserializer.
- Moderation: the count, the ban and its expiry share one clock reading; a failing statement ends its
  request with the tables as they were before it.
- Encryption: `get` is unambiguous for distinct update times only. Counters wrap at 2^32.
- Ratchet: the Diffie-Hellman function commutes, the key derivation yields the length asked for, and the
  cipher opens what it sealed; statements about messages that do not open also assume that it rejects
  what another key sealed.

## Model

| member | source | states |
|---|---|---|
| `PresenceMachine.RunKeepsInv` | messaging-platform/presence/src/main.rs:46-155 | In every run of requests, cleanups and subscriptions with any failures, the joint invariant holds: one guard holder whose commit is last in the log, each request commits at most once, the map is the outcome of the guarded steps, and the Kafka log, channels and streams follow it |
| `PresenceMachine.LiveView` | messaging-platform/presence/src/main.rs:62-134 | In every interleaving, for each clock value from now on, the map shows of each device exactly its last commit while that is live, with its status, times and custom status, and otherwise nothing |
| `PresenceMachine.ShowsLastLiveIff` | messaging-platform/presence/src/main.rs:62-134 | In every reachable state the map shows of a device, from now on, the last commit among those still live at each moment, exactly when no commit live now has a later stamp than the last |
| `PresenceMachine.CommitKeepsLastLiveIff` | messaging-platform/presence/src/main.rs:111-134 | One commit takes that away from its device exactly when the entry it is about to overwrite is live and has a later stamp |
| `PresenceMachine.EntriesExplained` | messaging-platform/presence/src/main.rs:112-134 | Each entry is unique per device, sits under its own user, takes status, custom status and times from the latest commit and address and agent from the first commit since the device was last removed |
| `PresenceMachine.HistoryBacksEverything` | messaging-platform/presence/src/main.rs:90-150 | Under any failures and interleavings every in-memory entry repeats a stored history row, and every published event tells of a commit, field by field, whose whole history row is stored |
| `PresenceMachine.KafkaFollowsCommits` | messaging-platform/presence/src/main.rs:111-150 | The Kafka log is the commit sequence, in order, restricted to requests answered with success; no request commits twice and every success has its commit |
| `PresenceMachine.StreamsFollowCommits` | messaging-platform/presence/src/main.rs:265-280 | A subscriber's stream is an order-preserving subsequence of its user's commits, a contiguous stretch if it never lagged, and up to the last announced commit once caught up |
| `PresenceMachine.StreamsStartFresh` | messaging-platform/presence/src/main.rs:265-270 | In every run a stream yields only updates announced after it subscribed |
| `PresenceMachine.LaggedIff` | messaging-platform/presence/src/main.rs:273-279 | In every run a stream counts as lagged exactly when it has fallen behind and skipped |
| `PresenceMachine.EmbeddedNeverOutlivesKey` | messaging-platform/presence/src/main.rs:62-87 | In every run, whichever Redis commands fail or are delayed, the expiry embedded in a device value never exceeds the key's own deadline |
| `PresenceCache.CacheShape` | messaging-platform/presence/src/main.rs:112-134 | After any sequence of commits and sweeps no user has an empty list, devices are unique and entries sit under their own user |
| `PresenceCache.LookupStep` | messaging-platform/presence/src/main.rs:115-134 | What one commit or sweep does to what the map holds for one device: refresh or insert, removal when the stamp has reached its expiry, otherwise nothing |
| `PresenceCache.EntryOrigin` | messaging-platform/presence/src/main.rs:112-134 | Over any log with stamps in any order, an entry is explained by the opening and the last commit; no entry means each commit was followed by a removal |
| `PresenceCache.LiveDeviceIsKept` | messaging-platform/presence/src/main.rs:442-450 | Eviction with an old clock reading never loses a device whose last commit outlives every stamp used |
| `PresenceCache.LiveViewIsLastCommit` | messaging-platform/presence/src/main.rs:111-134 | For any log and any clock value not before its stamps, what the map shows of a device is its last commit while live |
| `PresenceCache.IndexOf` | messaging-platform/presence/src/main.rs:115-115 | The first entry of the device is the one found, or none has it |
| `PresenceCache.RetainIsExact` | messaging-platform/presence/src/main.rs:134-134 | Exactly the entries that outlive the stamp are kept, in their order and as often as they were there |
| `PresenceTiming.TimelyRunIsFresh` | messaging-platform/presence/src/main.rs:432-458 | With sweeps at most 60 seconds apart and commits less than 300 seconds late, each entry expires after the last sweep's clock reading |
| `PresenceTiming.StalenessBoundIff` | messaging-platform/presence/src/main.rs:437-450 | Every cached entry is under 360 seconds old in all such runs exactly when commits follow their clock reading by less than 300 seconds |
| `PresenceTiming.LateCommitIsStale` | messaging-platform/presence/src/main.rs:62-134 | A run in which a late commit leaves an entry of 360 seconds |
| `PresenceTiming.LateCommitHidesNewer` | messaging-platform/presence/src/main.rs:62-134 | A run in which a late commit hides a newer live one |
| `RedisStore.SpreadWriteAgreesIff` | messaging-platform/presence/src/main.rs:77-87 | With time between the three commands, every unexpired device key is in its user's index afterwards exactly when the index did not lapse between `sadd` and `expire`; the embedded expiry is within the key's deadline either way |
| `RedisStore.LapseWitness` | messaging-platform/presence/src/main.rs:85-87 | Two devices of one user whose second write loses the index |
| `RedisStore.InstantWritesNeverLapse` | messaging-platform/presence/src/main.rs:77-87 | A key whose updates run their three commands at one instant never loses the index |
| `RedisStore.WritesKeepKey` | messaging-platform/presence/src/main.rs:63-87 | Over any run, one user's updates in order and others anywhere: a live key is in its user's index, which lasts at least as long, unless its last write lost the index, and is then in none; the embedded expiry is within the key's deadline |
| `RedisStore.IndexedIff` | messaging-platform/presence/src/main.rs:77-87 | After any such run an unexpired device key is in its user's index exactly when its last write did not lose the index between `sadd` and `expire` |
| `RedisStore.CountCoversLiveDevices` | messaging-platform/presence/src/main.rs:184-231 | The devices a reader counts include every live one exactly when no live device's last write lost the index, and then the count is at least the number of live devices |
| `PresenceAgreement.RedisHoldsLast` | messaging-platform/presence/src/main.rs:65-82 | Redis holds, under each device's key, the device's last commit |
| `PresenceAgreement.StoresAgreeIff` | messaging-platform/presence/src/main.rs:65-206 | After updates of a user that do not overlap or fail, with sweeps and other users anywhere, the reader's view of a device equals the in-memory live view exactly when the device is not live with a last update that lost the index |
| `PresenceAgreement.InstantUpdatesAgree` | messaging-platform/presence/src/main.rs:65-206 | So the two stores agree at every time when each update of the device runs its three commands at one instant |
| `PresenceStores.AloneRunHolds` | messaging-platform/presence/src/main.rs:65-134 | In every run in which updates of one device do not overlap between key write and commit, Redis holds under its key the value of the update in flight or of the last commit |
| `PresenceStores.StoresAgreeIff` | messaging-platform/presence/src/main.rs:65-206 | In every such run, all other requests and sweeps interleaving and failing at will, from now on the reader's view of a device with no update in flight equals the in-memory view exactly when the last command of its last update came in time or its value is no longer live |
| `PresenceStores.PromptStoresAgree` | messaging-platform/presence/src/main.rs:65-206 | So the two stores agree at every time when the commands of the device's updates share an instant |
| `PresenceAgreement.HiddenDeviceWitness` | messaging-platform/presence/src/main.rs:85-87 | Two updates after which a device is live in memory and invisible to a reader of Redis |
| `PresenceIndex.RenewalCoversIff` | messaging-platform/presence/src/main.rs:85-87 | Under any interleaving the last command of a request leaves its key in an index that lasts as long exactly when it finds the key dead, or in the index and extends it or need not |
| `PresenceIndex.SettledKeyIsIndexed` | messaging-platform/presence/src/main.rs:77-87 | In every run of the machine, with any commands failing or lapsing before, a live key with no request between its commands is in its user's index if the most recent last command of its requests came in time |
| `PresenceIndex.PromptRunIsInTime` | messaging-platform/presence/src/main.rs:77-87 | It always does when no time passes between the commands of the key's requests and its index commands succeed |
| `PresenceIndex.PromptKeyIsIndexed` | messaging-platform/presence/src/main.rs:77-87 | So in every reachable state, other requests interleaving, such a live key is in its user's index whenever no request of it is between its commands |
| `PresenceIndex.CoveredIff` | messaging-platform/presence/src/main.rs:184-189 | An index that lasts as long as a key is one in which every reader that finds the key alive finds it |
| `PresenceIndex.IndexHoldsOwnKeys` | messaging-platform/presence/src/main.rs:85-86 | In every run a user's index names keys of that user alone, each put there by the `sadd` of a request for that device |
| `PresenceReader.Summarize` | messaging-platform/presence/src/main.rs:199-224 | The fold answers online exactly when some live device is online, with the first such device's data; otherwise the last live status or offline, the maximum of now and the live last activities, and the custom status that goes with it |
| `PresenceReader.GatheredIsLatest` | messaging-platform/presence/src/main.rs:199-220 | What the loop has gathered before any online device: the last live status, the maximum of now and the live last activities, and the custom status of the first device that has it |
| `PresenceReader.SummaryIgnoresOrder` | messaging-platform/presence/src/main.rs:199-224 | Online or not, and the time reported when not online, do not depend on the order of the device data |
| `PresenceReader.OnlineIsMembership` | messaging-platform/presence/src/main.rs:205-212 | The fold answers online exactly when some live value is online |
| `PresenceReader.SMembers` | messaging-platform/presence/src/main.rs:184-189 | Every member of a live index once, in some order |
| `PresenceReader.MGet` | messaging-platform/presence/src/main.rs:193-197 | Succeeds exactly when every key is live, with one value per key in key order |
| `PresenceReader.LookUp` | messaging-platform/presence/src/main.rs:181-246 | One user's answer, the index and the values read at times of their own: offline with zero devices for an empty index, otherwise the fold over all values and the index size; fails exactly when an indexed key has no value left |
| `PresenceReader.GetPresence` | messaging-platform/presence/src/main.rs:157-253 | Unparsable ids are dropped and none left is an invalid argument; on success exactly the parsed users are answered, each by its own last lookup; fails exactly when some lookup does |
| `PresenceReader.AnswerIsOnlineIff` | messaging-platform/presence/src/main.rs:199-232 | A user's answer is online exactly when some indexed device is live and online |
| `PresenceReader.ListOnline` | messaging-platform/presence/src/main.rs:323-334 | Exactly the online users of the answer, each once, as online and with the answer's time and custom status |
| `PresenceReader.GetOnlineFriends` | messaging-platform/presence/src/main.rs:285-339 | When the lookups succeed, exactly the friends with a live online device at their lookup, each once, as online and with the time and custom status that lookup answered |
| `PresenceService.Service.UpdatePresence` | messaging-platform/presence/src/main.rs:46-155 | The new contents of all five stores and the answer or error for each way a call can end |
| `PresenceService.WritesReadBack` | messaging-platform/presence/src/main.rs:76-87 | The three commands change nothing of another device or user; when they succeed in order without a lapse, a reader finds the update until the key expires, and the index holds what was there when the key was added, the key, and nothing else |
| `PresenceService.Service.CommitInMemory` | messaging-platform/presence/src/main.rs:111-134 | The guarded block is one commit of the map |
| `PresenceService.Service.Broadcast` | messaging-platform/presence/src/main.rs:137-147 | The user's channel, if there is one, gains exactly this update; every other channel is as it was and none is created |
| `PresenceService.Service.SubscribePresence` | messaging-platform/presence/src/main.rs:255-283 | Creates a missing channel, keeps all others, and starts at the channel's end |
| `PresenceService.Service.RunCleanup` | messaging-platform/presence/src/main.rs:442-450 | A user's entry stays exactly when it outlives the clock reading, and no user keeps an empty list |
| `PresenceService.Service.BulkPresenceUpdate` | messaging-platform/presence/src/main.rs:341-371 | The two 32-bit counters count successes and failures, together the number of updates, the Kafka log grows by exactly the successes in order, and commits lie between successes and total |
| `PresenceBatch.BatchIsConserved` | messaging-platform/presence/src/main.rs:347-369 | The same for a batch among any other requests: in every run successes and failures add up, each success has exactly one event, in commit order, and commits lie between successes and total |
| `PresenceService.HandlerIsRun` | messaging-platform/presence/src/main.rs:46-155 | A call that nothing interleaves with, however slow, is a run of the machine to the same stores and answer |
| `Gateway.ConnectionRegistry.Connect` | messaging-platform/gateway/src/main.rs:171-183 | The new connection comes last in its user's list, with nothing sent; every other list stays |
| `Gateway.ConnectionRegistry.ReceiveHeartbeat` | messaging-platform/gateway/src/main.rs:249-259 | All other users' lists stay, the own list keeps its length, and of the first connection of the device only the time of the last heartbeat changes |
| `Gateway.ConnectionRegistry.CleanupStaleConnections` | messaging-platform/gateway/src/main.rs:376-384 | A connection stays exactly when its last heartbeat is under 60 seconds old, and no user keeps an empty list |
| `Gateway.ConnectionRegistry.Disconnect` | messaging-platform/gateway/src/main.rs:213-219 | All other users' lists stay; of the own list exactly the connections of other devices remain, and the key goes with the last one |
| `Gateway.ConnectionRegistry.BroadcastMessage` | messaging-platform/gateway/src/main.rs:484-490 | Every connection of another user is sent the message once, in whatever order the map is walked |
| `Gateway.ConnectionRegistry.SendToUser` | messaging-platform/gateway/src/main.rs:485-489 | Each of one user's connections is sent the item unless it is the sender's |
| `Gateway.ConnectionRegistry.BroadcastTyping` | messaging-platform/gateway/src/main.rs:328-346 | Every connection under another user's key is sent the indicator once |
| `Gateway.TypingIsPush` | messaging-platform/gateway/src/main.rs:339-345 | Under the registry invariant, checking the key and checking each connection select the same receivers |
| `Gateway.FirstOf` | messaging-platform/gateway/src/main.rs:252-255 | The first connection of the device, or none has it |
| `Sequences.FilterIsExact` | messaging-platform/gateway/src/main.rs:381-381 | A filter keeps exactly the elements that satisfy its condition, in order and as often as they were there; the one meaning of every `retain` and `WHERE` filter here |
| `GatewayMachine.NoGhostConnections` | messaging-platform/gateway/src/main.rs:171-219 | In every interleaving, receive loops outliving their handler included, each connection belongs to a session that has not done its disconnect step, sits under its own user, and no list is empty |
| `GatewayMachine.RegisteredStaysIff` | messaging-platform/gateway/src/main.rs:171-219 | In every run a registered connection goes with an event exactly when that is a cleanup that finds it a minute old or a disconnect of its user and device; otherwise it stays, with its owner and what it was sent |
| `GatewayMachine.ConnectRegisters` | messaging-platform/gateway/src/main.rs:171-183 | A connect registers its session, at the present time and with nothing sent |
| `GatewayMachine.HeartbeatAfterDisconnect` | messaging-platform/gateway/src/main.rs:207-219 | A run in which a receive loop outlives its handler and sends a heartbeat after the disconnect step |
| `GatewayMachine.RegisteredIsRecent` | messaging-platform/gateway/src/main.rs:131-134 | With cleanups at most 30 seconds apart every registered connection is under 90 seconds past its last heartbeat |
| `GatewayMachine.SweptRunsGoOn` | messaging-platform/gateway/src/main.rs:131-134 | Runs with a cleanup every 30 seconds go on for any length of time |
| `GatewayMachine.SilenceLasts` | messaging-platform/gateway/src/main.rs:243-300 | A receive loop that has ended sends no heartbeat any more |
| `GatewayMachine.PunctualIsSafeIff` | messaging-platform/gateway/src/main.rs:251-257 | At each connect of each run: whatever happens afterwards, no cleanup evicts the session while it sends a heartbeat every 60 seconds, exactly when its user had no registered connection for its device |
| `GatewayMachine.OwnStep` | messaging-platform/gateway/src/main.rs:249-259 | Every event keeps a session's connection the first of its device and its heartbeats arriving, later duplicates included |
| `GatewayMachine.TouchReachesOwn` | messaging-platform/gateway/src/main.rs:251-257 | A heartbeat of the first connection of a device reaches that connection; any other only renews what it finds |
| `GatewayMachine.DuplicateDeviceIsEvicted` | messaging-platform/gateway/src/main.rs:249-259 | With a duplicate device id the punctual connection is evicted and the silent one stays |
| `GatewayMachine.DisconnectRemoves` | messaging-platform/gateway/src/main.rs:213-219 | A connection disappears exactly when it has the disconnecting session's user and device |
| `GatewayMachine.LateDisconnectDropsReconnect` | messaging-platform/gateway/src/main.rs:213-219 | A run in which an evicted session's disconnect removes the device's new connection |
| `Processor.RunKeepsOrder` | messaging-platform/messaging/src/main.rs:64-78 | In every run, for every conversation at once, the consumed prefix, its verdicts, the processed log and the message at hand fit together |
| `Processor.ProcessedIsFilteredPrefix` | messaging-platform/messaging/src/main.rs:69-97 | Each conversation's processed log is the consumed prefix of what was forwarded, filtered by whether the sender was among the members at the moment of each check, short at most of the message at hand |
| `Processor.VerdictsAreChecks` | messaging-platform/messaging/src/main.rs:82-97 | In every run the verdict on the i-th message of a conversation is the membership of its sender in the state in which it was checked |
| `Processor.MessagesAreForwards` | messaging-platform/gateway/src/main.rs:302-326 | The messages log of a conversation is what was forwarded to it with success, in order |
| `Processor.UnreadIsConserved` | messaging-platform/messaging/src/main.rs:142-173 | At every step undelivered rows never exceed unread increments, and between messages they are equal, while membership changes freely |
| `Processor.ParticipantsWereMembers` | messaging-platform/messaging/src/main.rs:142-208 | In every run, who is being counted and given a row were the members of the conversation when its participants were listed |
| `Processor.OwnMessageNeverCounts` | messaging-platform/messaging/src/main.rs:145-165 | A count only rises by one, in the message's conversation, for a listed participant who is not its sender |
| `MessageProcessor.MessageProcessor.CountUnread` | messaging-platform/messaging/src/main.rs:142-165 | Every participant but the sender is counted once per listing; succeeds exactly when enough commands do |
| `MessageProcessor.MessageProcessor.CreateDeliveryStatus` | messaging-platform/messaging/src/main.rs:210-238 | One row per participant in list order, with the message, the conversation, the participant and delivered for the sender alone; on failure a prefix of them |
| `MessageProcessor.MessageProcessor.ProcessMessage` | messaging-platform/messaging/src/main.rs:80-194 | A message is published exactly when its sender is a member and no step fails, with all bookings and its place in the log; a non-member's message changes nothing; a failure publishes nothing and leaves no row without its increment |
| `MessageProcessor.MessageIsRun` | messaging-platform/messaging/src/main.rs:80-194 | A message that nothing interleaves with is a run of the machine: published with its rows exactly when every step succeeds, dropped without a trace for a non-member, and the end of the loop on an error |
| `MessageProcessor.RowsMatchShare` | messaging-platform/messaging/src/main.rs:210-238 | The rows of one message add, for each user, as many undelivered rows as the counting loop adds increments |
| `Fanout.FanStepKeeps` | messaging-platform/gateway/src/main.rs:435-490 | Every step of the consumer, the broadcast walk, typing and the registry keeps each connection served up to the right offset |
| `Fanout.VisitServes` | messaging-platform/gateway/src/main.rs:484-490 | One visit moves a user's connections one message further, their own messages left out |
| `Fanout.TypingReaches` | messaging-platform/gateway/src/main.rs:328-346 | A typing step sends the indicator into every connection of its user and changes nothing else |
| `Pipeline.QueuesKeepLogOrder` | messaging-platform/gateway/src/main.rs:302-326 | In every run of many sockets, one gateway and one processor, a connection's queued messages of a conversation are a subsequence of that conversation's messages log, none its own user's |
| `Pipeline.QueuePositions` | messaging-platform/gateway/src/main.rs:302-326 | The same by positions: each queued message has its own place in the log, later ones further back |
| `Pipeline.RegisteredGetsEverything` | messaging-platform/gateway/src/main.rs:432-446 | A registered connection has been queued, in order, exactly the processed messages fetched since it connected that are not its own user's; one more may come before them only if its broadcast was under way at the connect |
| `Pipeline.QueuedSenderIsKnown` | messaging-platform/gateway/src/main.rs:302-316 | Every queued message names a sender that had a session, and not the receiver |
| `Pipeline.QueuedPassedCheck` | messaging-platform/messaging/src/main.rs:82-97 | In every run, what a connection was queued of a conversation is a subsequence of what sockets forwarded, filtered by the sender's membership at the moment of its check |
| `Pipeline.ProcessorRuns` | messaging-platform/messaging/src/main.rs:64-78 | The processor inside the pipeline has had a run of its own, so everything proved of its runs holds there |
| `Pipeline.ProcessedFollowsMessages` | messaging-platform/messaging/src/main.rs:240-257 | The processed log of a conversation is a subsequence of its messages log |
| `Recipients.ReceiversAreVisited` | messaging-platform/gateway/src/main.rs:484-490 | In every run the current broadcast has been sent to exactly the visited users, the sender left out |
| `Recipients.OnlyMembersIff` | messaging-platform/gateway/src/main.rs:462-490 | When a broadcast begins: in every continuation in which only the sender and members connect and the members stay, members alone receive the message exactly when every user in the registry is the sender or a member |
| `Recipients.BroadcastReachesAll` | messaging-platform/gateway/src/main.rs:484-490 | A complete broadcast has reached every other user with a connection from before it began |
| `Recipients.BroadcastCanEnd` | messaging-platform/gateway/src/main.rs:484-490 | In every reachable state the broadcast under way can be completed by visits alone |
| `Recipients.NonMemberIsQueued` | messaging-platform/gateway/src/main.rs:484-490 | A run in which a user who is not a member is queued a conversation's message |
| `Moderation.CountIsReportersIff` | messaging-platform/moderation/src/main.rs:548-561 | The hourly count is the number of distinct reporters exactly when no reporter is twice in the hour, and never less |
| `Moderation.BanLastsADay` | messaging-platform/moderation/src/main.rs:564-575 | A ban is in force for exactly the 24 hours after it was imposed |
| `Moderation.TextsMatchIff` | messaging-platform/moderation/src/main.rs:288-304 | A stored type or status is the literal it is compared with only in lower case and for its own value |
| `ModerationMachine.ResolutionFieldsAgree` | messaging-platform/moderation/src/main.rs:288-346 | In every run, with either rendering, both resolution fields are set exactly when the status is 'resolved', and never before creation |
| `ModerationMachine.BansRestOnFiveReporters` | messaging-platform/moderation/src/main.rs:548-575 | Every automatic ban of a target without doubled complaints rests on requests of at least five distinct users who complained of spam within the preceding hour |
| `ModerationMachine.RestrictedWasReported` | messaging-platform/moderation/src/main.rs:413-450 | Whoever is reported as restricted, without doubled complaints, was the subject of spam requests of five distinct users in the last 25 hours |
| `ModerationMachine.RowsStemFromRequests` | messaging-platform/moderation/src/main.rs:190-205 | In every run each row of the report table shows reporter, target, type and reason of a request that arrived, and the time it was stored |
| `ModerationMachine.SpacedIffClean` | messaging-platform/moderation/src/main.rs:164-205 | In every run, repeated reports on a target lie a day apart exactly when each successful insert still found no report of its complaint in the 24 hours before its own instant |
| `ModerationMachine.SerialRunIsClean` | messaging-platform/moderation/src/main.rs:164-205 | Every insert is clean when one complaint's check and insert are not split by another check of that complaint, other targets and reporters interleaving freely |
| `ModerationLimits.NeverBansAsWritten` | messaging-platform/moderation/src/main.rs:190-205 | With the rendering the code uses, no run imposes a restriction |
| `ModerationLimits.BanReachableIff` | messaging-platform/moderation/src/main.rs:554-575 | Some run bans exactly when stored texts match the literals of the queries |
| `ModerationLimits.FifthReportBans` | messaging-platform/moderation/src/main.rs:564-575 | With matching texts the fifth distinct reporter within the hour gets the target banned |
| `ModerationLimits.CheckBansIff` | messaging-platform/moderation/src/main.rs:543-575 | The automatic check bans exactly when five distinct users reported the target for spam in the last hour, wherever no complaint about it was doubled |
| `ModerationLimits.RacingReporterBansAlone` | messaging-platform/moderation/src/main.rs:164-205 | Overlapping requests of one reporter ban a target alone |
| `ModerationLimits.RepeatAfterADay` | messaging-platform/moderation/src/main.rs:164-185 | The same complaint is refused for exactly 24 hours after it was stored |
| `ModerationService.ModerationService.CreateReport` | messaging-platform/moderation/src/main.rs:151-221 | On any tables, the answer and both new tables for each way a request can end, failing statements included; the stored row shows the request field by field; spaced reports stay spaced, and where they are, justified bans stay justified |
| `ModerationService.ModerationService.Refusal` | messaging-platform/moderation/src/main.rs:159-188 | Why a request is refused before its row is stored: the target, the duplicate check or a failing statement |
| `ModerationService.ReportIsRun` | messaging-platform/moderation/src/main.rs:151-221 | A request that nothing interleaves with is a run of the machine, to the same tables and the same answer |
| `ModerationService.ModeratorSteps` | messaging-platform/moderation/src/main.rs:288-346 | A moderator's step changes the outcome of one row, as its statement says, and nothing else |
| `ModerationService.CallsForBanIff` | messaging-platform/moderation/src/main.rs:548-564 | The row count that calls for a ban means five distinct reporters exactly, if none of them is there twice |
| `ModerationService.ModerationService.CheckAutomatedActions` | messaging-platform/moderation/src/main.rs:543-597 | On any tables, bans and resolves exactly when the hour's rows call for it, as far as its statements succeed, and otherwise changes nothing; a ban on spaced reports is justified |
| `ModerationService.ModerationService.UpdateReport` | messaging-platform/moderation/src/main.rs:276-315 | On any tables, the one row gets the status text and, exactly for a stored 'resolved', time and moderator, also when only the publish fails; every other error changes nothing; spacing and justification kept |
| `ModerationService.ModerationService.ResolveReport` | messaging-platform/moderation/src/main.rs:317-357 | The same for the direct resolution |
| `ModerationService.ModerationService.GetUserModerationStatus` | messaging-platform/moderation/src/main.rs:413-454 | On any tables, all restrictions in force, the number of report rows about the user in 32 bits, and restricted exactly when a restriction is in force; backed by five reporters in 25 hours where the user's bans are justified |
| `ModerationService.ActiveFor` | messaging-platform/moderation/src/main.rs:418-427 | Exactly the restrictions in force for the user, in table order and each as often as the table has it |
| `ModerationService.TotalCountsRows` | messaging-platform/moderation/src/main.rs:430-437 | The report count is the number of rows about the user |
| `EncryptionTable.CounterRoundTrip` | messaging-platform/encryption-service/src/main.rs:61-65 | Every 32-bit counter survives storage as a signed integer |
| `EncryptionTable.TableRepresentsLog` | messaging-platform/encryption-service/src/main.rs:38-66 | A triple has a row exactly when some store of it was not followed by a delete of its session; the row has the last such store's keys and the first one's counters |
| `EncryptionTable.NewestIsLatest` | messaging-platform/encryption-service/src/main.rs:88-116 | Whatever the times, the newest row answers with the keys of an undeleted store for the pair with the greatest time and the first counters of its triple, older sessions taking over after a delete |
| `EncryptionTable.NewestIsCurrentIff` | messaging-platform/encryption-service/src/main.rs:88-116 | With distinct times the newest row belongs to the last store committed exactly when no standing store for the pair has a later time |
| `EncryptionTable.LastCommittedIsNotNewest` | messaging-platform/encryption-service/src/main.rs:88-96 | Two stores with distinct times whose newest row is not that of the last committed one |
| `EncryptionTable.NoRowNoStore` | messaging-platform/encryption-service/src/main.rs:118-120 | Not found means that no store for the pair is undeleted |
| `EncryptionTable.StandingHasRow` | messaging-platform/encryption-service/src/main.rs:38-66 | The latest undeleted store of a triple has a row with its own time |
| `EncryptionTable.EncryptionService.StoreEncryptionSession` | messaging-platform/encryption-service/src/main.rs:21-75 | The table keeps refining its log, which grows by the store exactly on success |
| `EncryptionTable.EncryptionService.DeleteEncryptionSession` | messaging-platform/encryption-service/src/main.rs:124-145 | The same for a delete, of whichever rows the session has |
| `EncryptionTable.EncryptionService.GetEncryptionSession` | messaging-platform/encryption-service/src/main.rs:77-122 | Found exactly when an undeleted store for the pair exists, answering with the one of greatest time and its triple's first counters; with distinct times that is the last one committed whenever its time is the greatest |
| `Ratchet.DoubleRatchet.PerformRatchetStep` | messaging-platform/client-sdk/src/crypto/mod.rs:82-113 | The receiving chain stays, the ratchet keys and counts are as given, and a peer with the same root that steps with this side's old key arrives at the same root and sending chain |
| `Ratchet.DoubleRatchet.constructor` | messaging-platform/client-sdk/src/crypto/mod.rs:41-58 | A new object has the given keys and all counts zero |
| `Ratchet.DoubleRatchet.Encrypt` | messaging-platform/client-sdk/src/crypto/mod.rs:60-71 | Seals under the key derived from the whole sending chain, and every ratchet whose receiving chain is this sending chain opens the result |
| `Ratchet.DoubleRatchet.Decrypt` | messaging-platform/client-sdk/src/crypto/mod.rs:73-80 | What another ratchet sealed opens to its text when that one's sending chain gives this receiving chain's message key, and otherwise not at all |
| `Ratchet.RoundAgrees` | messaging-platform/client-sdk/src/crypto/mod.rs:82-113 | One round keeps roots equal and makes sending chains equal, as the two halves of the derived output, and leaves each side with its new secret and the other's key |
| `Ratchet.RoundsAgree` | messaging-platform/client-sdk/src/crypto/mod.rs:82-113 | After n rounds roots and sending chains are equal, the count is n modulo 2^32, and the receiving chains have not moved |
| `Ratchet.DecryptsIff` | messaging-platform/client-sdk/src/crypto/mod.rs:60-80 | A message opens exactly when the two chains give the same message key |
| `Ratchet.EarlyMessagesOpen` | messaging-platform/client-sdk/src/crypto/mod.rs:60-113 | In any mix of sends, openings in any order and ratchet steps of both sides, every message sealed before the sender's first step opens whenever it is tried, if the chains matched at the start |
| `Ratchet.MessageOpensIff` | messaging-platform/client-sdk/src/crypto/mod.rs:60-113 | In any such mix a message opens exactly when the chain it was sealed under gives the message key of the receiver's first receiving chain |
| `Ratchet.RoundsLeaveReceiverBehind` | messaging-platform/client-sdk/src/crypto/mod.rs:95-113 | After one or more rounds a message opens exactly when the agreed chain derives the unchanged receiving chain's message key |
| `RatchetWitness.RoundSeparates` | messaging-platform/client-sdk/src/crypto/mod.rs:82-113 | Primitives that meet every assumption at once, and two sides that read each other before a round and cannot after it |

## Left out

- GatewayMachine.RegisteredIsRecent: takes a cleanup pass as one step, while the code reads the clock once and then walks the map.
- EncryptionTable.NewestIsCurrentIff: for equal update times the table does not decide which row is newest.
- Ratchet.MessageOpensIff: a cipher that never opens another key's message is an idealisation.
- The HTTP, gRPC, WebSocket, Redis, Kafka, Postgres and Scylla clients themselves, JSON, UUID text and calendar dates.
- Cancellation of a gRPC call between two of its steps.
- Consumer restarts and redelivery, and the sender task that drains a connection's queue into its socket.
- The size of a broadcast channel: a subscriber may fall behind at any moment.
- The message rows in Scylla, the conversation's last-message time, read receipts and the presence-updates topic.
- The gateway's own `presence:{user}` key, which the presence service never reads.
- The auth service, token checks, request validation, `list_reports`, moderation statistics and the empty moderation actions.
- Group key rotation, the X3DH placeholder, one-time keys, and all cryptographic primitives, which are parameters.
- The client SDK's network layer and all HTML, CSS and JavaScript.
