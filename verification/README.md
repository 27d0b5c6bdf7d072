# A verified model of the game server's ownership, directory and IPC core

This project models, in Dafny, the parts of the server in which several kinds of state have to agree, and
proves what the code promises about them for every run.

**Player ownership.** Games own players through leases with a time to live in Redis. `Leases` holds the
Redis commands and the lease service of one game; `LeaseProtocol` is the state machine of any number of
games with a global clock. Inside one game a player lives in seven places at once: session, repository
record, runtime instance, receiver host, receiver directory, lease table and stored entry. `PlayerView`
gives each call as a function on all of them, `GameServices` and `SessionService` are the classes proved
against these functions, and `PlayerRuns` proves what holds after every run of calls with the lease lost at
any moment. `SessionLife` says what a session is after every run: by which activation it is reached, how long
a detached player is kept, what is counted. `Handover` puts any number of such games under the lease
protocol, over one stored entry, with crashes: while no lease in use is lost, a player is handed over from
game to game exactly, and the handover works. `Persistence` is the flush scheduler, and `Durability` says how
long a change can stay unsaved.

**Directory and storage.** `DirectoryProtocol` is the id allocation as a state machine over single Redis
commands of any number of processes, with lost replies; `DirectoryStarts` says from which contents of Redis
it works; `DirectoryService` is the class with its retry loop, proved under interference by the others.
`Storage` is the cache in front of the table. `Login` joins the two: the flag `created` of the directory
permits default data, and stored data are never replaced by it.

**IPC.** `Links` and `Handshake` are the link manager and two of them over one connection. `Membership` is
the discovery snapshot and its diff. `Routing`, `Messaging` and `Network` are the routing decision, the
recursive send and an envelope's way through a network of messengers. `Framing` and `Transport` are the
frame header, the read and write loops over sockets that split the stream at will, and the reassembly.
`Base64` and `PrefixRange` are the codecs of the etcd backend, `TextForms` the colon-separated values and
keys.

Code that changes fields is modelled by classes and loops; each method's contract ties the new state to a
function of the old one, and the properties are proved about these functions.

## Where the code does less than it seems to

Each of these is proved with the exact condition, or with a run that shows it.

- A session that lost its lease and was unbound by a reconcile goes to unloading when it is released and
  stays there (`PlayerRuns.ReleaseCompletesExactlyWhenBound`, `PlayerRuns.LostThenReleasedIsStuck`,
  `PlayerRuns.StuckUntilBoundByHand`).
- Only the flush scans ask for the lease; a release and an expiry write what is in memory without, so a game
  that has lost it can overwrite what another game stored: when its dirty session expires
  (`PlayerRuns.ExpiryOverwritesForeignData`), or when it takes the lease again and goes on with what it had
  (`PlayerRuns.RecoveryKeepsMemory`, `PlayerRuns.RecoveryOverwritesForeignData`). Exactly these steps write
  the table (`PlayerRuns.TableIsLastStored`), and foreign data survive exactly the runs in which none of them
  writes other data (`PlayerRuns.ForeignDataSurvive`). While no game loses a lease in use, it cannot happen
  (`Handover.OnlyTheOwnerStores`, `Handover.HandoverIsExact`).
- The flush scan goes by the last change of a record: a player who changes more often than the shortest
  landing time is not saved while he stays (`Durability.BusyPlayersAreNeverSaved`). After its last change
  nothing stays unsaved longer than that time and the pause between two scans
  (`Durability.ChangesAreSavedInTime`).
- A release forgets the lease whatever Redis answers. If its script is not executed, the key keeps other games
  out until the ttl has passed (`Leases.GivingBackFreesTheKey`, `LeaseProtocol.LapsedLeaseIsFree`).
- A put or delete that reaches Maria and not Redis leaves an old value in the cache, until the next change
  of the entry that reaches both (`Storage.CallKeepsCoherence`, `Storage.RightExactlyWhenSettled`,
  `Storage.PartialPutServesTheOldValue`). A load then yields the old value, and one that may create default
  data can yield those (`Login.LoadIsRightExactly`, `Login.PartialPutIsForgotten`).
- An activation that may create default data starts over although data are stored, when nothing is cached
  and Maria is away (`PlayerRuns.ReleaseThenActivateRestores`, `PlayerRuns.ReleasedThenStartsOver`).
- Ids are unique exactly from a counter that is absent or a number of at least 99999, with distinct entries
  that the counter has passed (`DirectoryStarts.UniqueExactlyFromGoodContents`), and only without the fall
  back to local ids (`DirectoryProtocol.LostIncrementSharesAnId`).
- Accounts of two platforms can share a directory key exactly if one platform with its colon begins the other with its
  colon (`TextForms.DirectoryKeyCollision`, `TextForms.PlatformsCollide`).
- Equal protocol versions are not enough for a link: version 0 is refused by everybody
  (`Links.OnlyTheSameVersionIsCompatible`, `Handshake.HowItEnds`).
- A link can be active towards nobody for a while, when frames arrive before the connected event
  (`Handshake.ActiveWithoutIdentity`).
- Two relays hand an envelope back and forth without end exactly if neither reaches the target and each
  reaches the other (`Network.TwoRelaysBounce`), and a relay and a process exactly if the process does not
  find itself and the two can hand the envelope to each other (`Network.UnawareProcessBounces`,
  `Network.UnawareProcessFromAnywhere`).
- A process's own registration is not announced as a membership event
  (`Membership.OwnRegistrationStaysSilent`).

## Model

The first 55 rows are the main results. The rows after them are what these rest on: invariants, the methods
proved against the functions, and runs that show where a condition is needed.

| member | source | states |
|---|---|---|
| LeaseProtocol.TrackedMeansOwnedOrStale | src/game/services/player_lease_service.cpp:262-300 | After every run of acquire, refresh, release, crash and clock steps of any number of games: a game that tracks a player owns the Redis key if and only if less than one ttl has passed since its last confirmed refresh. |
| LeaseProtocol.MutualExclusion | src/game/services/player_lease_service.cpp:75-120 | Two games track one player only if the older one had gone a full ttl without a confirmed refresh before the newer one acquired; then the older one no longer owns the key. |
| LeaseProtocol.RefreshKeepsExactlyWithinTtl | src/game/services/player_lease_service.cpp:357-386 | A refresh that Redis answers keeps the lease tracked if and only if it comes within the ttl. |
| LeaseProtocol.ForeignEntryUntouched | src/game/services/player_lease_service.cpp:13-20 | No acquire, refresh, release or crash of one game changes a live entry of a game with another instance id. |
| LeaseProtocol.ReleaseLetsTheNextIn | src/game/services/player_lease_service.cpp:122-144 | After any run: if the game owned the key and its release is executed, the key is free and the next answered acquire of any game that does not track the player is granted. |
| Handover.HandoverIsExact | src/game/services/player_session_service.cpp:34-297 | Any number of games over one stored entry, with no lease in use lost and no partial put: a player leaves one game, then anything happens in all games, crashes and failed activations included, then an activation succeeds in the same or another game; it has exactly the data held at the release, if and only if it does not start over. |
| Handover.HandoverWorks | src/game/services/player_session_service.cpp:34-297 | The whole handover: after every healthy run a player leaves a game, with the release reaching Redis, and enters any game with an answered acquire; that works exactly if the data can be read and the receiver bound there, and with Maria there or something cached the player has the data held at the release. |
| Handover.CleanRecordsAreStoredEverywhere | src/game/services/player_repository.cpp:7-83 | In such runs the clean records of all games equal the stored value: the single writer need not be assumed. |
| Handover.OnlyTheOwnerStores | src/game/services/player_session_service.cpp:265-282 | Whatever changes the stored entry is a call of the game that owns the lease, and no other game has the player in memory then. |
| PlayerRuns.SessionsAreComplete | src/game/services/player_session_service.cpp:34-170 | In every reachable state, with the lease lost at any time: an online or detached session has a loaded record and a runtime instance; while its lease is held it is bound here; every tracked lease belongs to such a session. |
| PlayerRuns.GuardedMessagesAreHandled | src/game/services/player_message_service.cpp:51-80 | So a forwarded message that passes the guards is handled, except a rename to the empty name. |
| SessionLife.ActivationAchieves | src/game/services/player_session_service.cpp:34-170 | On every branch an activation that works leaves the session online at exactly the given gate, since now, without a deadline and with one more activation counted, leased, bound, loaded and running; one that fails leaves session, runtime instance and lease as they were. |
| SessionLife.ActivationWorksExactly | src/game/services/player_session_service.cpp:34-170 | Exactly when an activation works: a held session if it is online or detached, a lost one if the lease is granted and the receiver can be bound, a player without a session if its data can be read as well. |
| SessionLife.SessionFollowsActivations | src/game/services/player_session_service.cpp:34-242 | After every run: the session counts the activations that worked since it began, at least one; online it is reached through the gate of the last of them, since its time, without a deadline; detached it has no gate and the deadline of its detachment. |
| SessionLife.KeptExactlyUntilItsDeadline | src/game/services/player_session_service.cpp:189-324 | A player detached after any run, and neither activated nor released since, is kept through anything else until the configured time has passed; a sweep from then on ends its session exactly if it is still bound here and what is dirty can be flushed. |
| SessionLife.CommandsAreCounted | src/game/services/player_runtime_service.cpp:3-49 | After every run the instance's command count is the number of messages handled since the session began, over detachments, reconnections and recovered leases. |
| PlayerRuns.ReleaseIsAllOrNothing | src/game/services/player_session_service.cpp:244-297 | While the lease is held, a release succeeds and the player is gone everywhere with its dirty data in the table if and only if there is nothing to flush or the flush works; otherwise nothing has changed. |
| PlayerRuns.ReleaseCompletesExactlyWhenBound | src/game/services/player_session_service.cpp:271-297 | Held or not: if the flush works, the release completes if and only if the player is still bound here, and is otherwise left in unloading. |
| PlayerRuns.ReleaseThenActivateRestores | src/game/services/player_session_service.cpp:139-170 | A successful release, then anything including failed activations, then the first activation that succeeds: it restores exactly the data held at the release if and only if it is not one that may create default data with nothing cached and Maria away. |
| PlayerRuns.TableIsLastStored | src/game/services/player_session_service.cpp:265-282 | After every run the table holds what the run stored last: by a flush of a loaded record, or a release or due expiry of a session with a dirty one, lease or no lease. |
| PlayerRuns.ForeignDataSurvive | src/game/services/player_session_service.cpp:265-282 | What another game has stored survives a run at every moment if and only if no step of the run stores other data. |
| DirectoryProtocol.IdsAreUnique | src/game/services/player_directory_service.cpp:5-97 | Over every interleaving of Redis commands of any number of processes: distinct keys have distinct ids, new ids are at least 100000, all caches and all returned ids agree with Redis, and each new key is created by exactly one call. |
| DirectoryService.PlayerDirectoryService.ResolveOrCreate | src/game/services/player_directory_service.cpp:5-97 | The call with its retry loop, under interference before every command: the cache and the entry afterwards; created exactly for the entry its own answered write made, and for a local id, so always when nobody else has the key and Redis cooperates; a created id is new, unique and above the counter, also from an absent counter when no reply is lost; a local id means a lost reply, a closed connection, an exhausted counter or bad contents. |
| DirectoryProtocol.CallEndsWithinSix | src/game/services/player_directory_service.cpp:32-90 | With its replies answered, a call ends after at most six commands: the retry loop terminates. |
| DirectoryStarts.UniqueExactlyFromGoodContents | src/game/services/player_directory_service.cpp:5-97 | With every reply coming back and the counter not running out, some run of two or more fresh processes shares an id if and only if it is not the case that the counter is absent or a number of at least 99999, the ids of the entries are distinct, and each is one the counter has passed or can never reach. |
| Storage.RightExactlyWhenSettled | src/framework/storage/service.cpp:354-477 | Over any sequence of calls at all: the cache agrees with the table, and every later get is right whatever the servers answer, if and only if the last change of the table did not leave the cache behind. |
| Storage.GetsAnswerTheTable | src/framework/storage/service.cpp:393-446 | Over every sequence of calls none of which reports a Redis failure: a successful get returns what the table holds, also with Maria disabled, and not-found means that the table has no entry. |
| Login.CreatedIdWasNeverStored | src/game/services/player_directory_service.cpp:58-73 | When a directory call returns created, the table has never had an entry for its id, over all runs of all processes' directory calls and dataset accesses. |
| Login.LoginNeverReplacesStoredData | src/game/services/player_login_service.cpp:61-68 | However late the load comes after the directory's answer and whatever servers are up: a load that succeeds yields the stored data when there is any, and default data only when there is none. |
| Persistence.PlayerPersistenceService.FlushDuePlayersOnce | src/game/services/player_persistence_service.cpp:84-170 | Exactly the due players among the loaded ones are flushed, each once (who is due: Persistence.ScanDoes); the published counts are those of the flags still set afterwards; attempts stay successes plus failures. |
| Persistence.ScanDoes | src/game/services/player_persistence_service.cpp:84-262 | Who is flushed, told from the state before a scan and the clock: a leased, loaded, dirty player always while its first write is pending, and otherwise exactly when it is out of its backoff and has left, has a change without a time or one as old as the shortest landing time; with Maria it is stored and clean afterwards, without it has one failure more and its next time; everybody else stays as he is. |
| Durability.ChangesAreSavedInTime | src/game/services/player_persistence_service.cpp:218-271 | Over any calls and scans, with scans at most d apart, Maria there at the scans and the lease held: nothing stays unsaved longer than the shortest landing time and d after its last change, a new player not longer than d after it came, one that has left not longer than d after it left or changed. |
| Durability.BusyPlayersAreNeverSaved | src/game/services/player_persistence_service.cpp:254-261 | The last change counts: a player renamed more often than the shortest landing time is not saved by any number of scans. |
| Persistence.RetryOverScansIsExact | src/game/services/player_persistence_service.cpp:134-185 | Over any scans and resets, whatever happens to the player in between: with n failures since the last reset or flush that worked, the retry state counts n and waits the n-th delay from the last of them. |
| Network.ResolvedEndsWithinTwo | src/framework/ipc/routing/relay_first_policy.cpp:113-144 | With one visible relay, an envelope for a resolved process ends after at most two forwards, dispatched only at that process or with a reported failure; and dispatched exactly if the links for it are there. |
| Network.ProcessEndsWithinTwo | src/framework/ipc/routing/relay_first_policy.cpp:90-110 | The same bound for process-addressed envelopes when the processes with the id they name see themselves; dispatched only at such a process. |
| Network.TwoRelaysBounce | src/framework/ipc/routing/relay_first_policy.cpp:127-141 | Between two relays an envelope is forwarded without end if and only if neither is the target or has a link to it and each sees the other and can send to it; in all other cases it has come to an end after two forwards. |
| Network.UnawareProcessFromAnywhere | src/framework/ipc/routing/relay_first_policy.cpp:90-110 | From every start: without end if and only if the two hand it to each other and its way leads to the process. |
| Messaging.Messenger.SendToReceiver | src/framework/ipc/messaging/messenger.cpp:29-41 | A send to a receiver: with an owner in the directory it is dispatched here exactly if that is this process and the payload is registered, and otherwise handed once to the owner or the first relay, with target, payload and owner in the envelope; without an owner it fails with no effect. |
| Messaging.BroadcastReachesTheMatching | src/framework/ipc/messaging/messenger.cpp:43-71 | A broadcast is delivered to each matching member, in order, with the given target and payload and that member as the resolved process: to all of them if it succeeds, otherwise to the first ones up to the effect that failed or the member that cannot be reached; refused without any. |
| Messaging.ReceiversDoNotFanOut | src/framework/ipc/messaging/messenger.cpp:169-198 | So no process that receives it fans it out again. |
| Handshake.HowItEnds | src/framework/ipc/link/link_manager.cpp:11-77 | Once drained, both links are active with the peer's identity if the versions are equal and not 0, and otherwise both are closed, whichever order the events came in. |
| Handshake.NeverActiveIfIncompatible | src/framework/ipc/link/link_manager.cpp:161-179 | With different versions, or version 0, no link is active at any time. |
| Handshake.ActiveWithoutIdentity | src/framework/ipc/link/link_manager.cpp:48-68 | Exactly when an active link does not lead to the peer: the peer's answer has come and its hello has not, which takes a peer that heard this side before its own connected event. |
| Handshake.RunsEnd | src/framework/ipc/link/link_manager.cpp:11-77 | Every run has at most six steps, and can go on exactly until it is drained. |
| Membership.DiffReplays | src/framework/ipc/discovery/etcd_discovery.cpp:85-118 | Replaying the queued events of a snapshot over the previous members gives exactly the new ones. |
| Membership.SnapshotKeepsInStep | src/framework/ipc/discovery/etcd_discovery.cpp:346-351 | A snapshot brings a consumer of all events up to date on every member it changes, and on no other. |
| Base64.DecodeInvertsEncode | src/framework/ipc/discovery/etcd_discovery.cpp:61-82 | Decoding an encoding gives back every byte string, although the accumulator wraps around at 32 bits. |
| PrefixRange.RangeIsExact | src/framework/ipc/discovery/etcd_sdk_discovery_backend.cpp:35-48 | A key has the prefix if and only if it lies in the range from the prefix to the computed end, in the byte order of keys, for every prefix and key. |
| Framing.FramesSurvive | src/framework/ipc/transport/tcp_transport.cpp:246-293 | Well-formed frames come out of a stream as they went in, in order, whatever follows them. |
| Framing.CutStream | src/framework/ipc/transport/tcp_transport.cpp:246-293 | A stream that breaks off anywhere yields exactly the frames that were sent completely. |
| TextForms.ParseOfBuild | src/game/services/player_lease_service.cpp:227-255 | For 32-bit ids the parsed value is the built owner if and only if the token is non-empty and has no colon. |
| TextForms.BuildValueInjective | src/game/services/player_lease_service.cpp:227-230 | Lease values are equal if and only if the owners are. |
| TextForms.ReceiverKeyInjective | src/framework/ipc/receiver/local_receiver_directory.cpp:91-98 | Receiver addresses have equal directory keys if and only if they are equal. |
| TextForms.DirectoryKeyCollision | src/game/services/player_directory_service.cpp:151-159 | Exactly when two accounts share a directory key; on colon-free platforms, only the same account. |
| LeaseProtocol.NextInv | src/game/services/player_lease_service.cpp:75-144 | Every single step keeps the protocol invariant (what each table entry says about the key, and who superseded whom). |
| LeaseProtocol.RunInv | src/game/services/player_lease_service.cpp:75-144 | So it holds after every run from the empty start. |
| LeaseProtocol.RenewPassIsRun | src/game/services/player_lease_service.cpp:357-386 | A renew pass over distinct players, in any order, is a run of single refresh steps and gives each player the effect of its own command alone. |
| Leases.PlayerLeaseService.Acquire | src/game/services/player_lease_service.cpp:75-120 | SET NX PX: success exactly when the player is tracked afterwards; the key and the table are those of the protocol's acquire step; refusal text when another game holds the key. |
| Leases.PlayerLeaseService.RefreshLeaseLocked | src/game/services/player_lease_service.cpp:262-300 | One compare-and-expire script call, tied to the protocol's refresh. |
| Leases.PlayerLeaseService.ReleaseLeaseLocked | src/game/services/player_lease_service.cpp:302-338 | One compare-and-delete script call, tied to the protocol's release; executed for a key that carries the value, it leaves the key free. |
| Leases.PlayerLeaseService.Release | src/game/services/player_lease_service.cpp:122-144 | The player is no longer tracked whatever Redis says, and its key is free if the game owned it and the script was executed; a key of another owner stays, and without a connection every key does. |
| Leases.PlayerLeaseService.RenewPass | src/game/services/player_lease_service.cpp:357-386 | The loop body: every tracked lease is refreshed with its own reply, the lost ones are forgotten, which without a connection are all; all other players are untouched. |
| Leases.PlayerLeaseService.ReleaseAllTrackedLocked | src/game/services/player_lease_service.cpp:340-355 | Every tracked lease is released by its own owner value, none is tracked afterwards, and the keys the game owned are free where the script was executed. |
| Leases.GivingBackFreesTheKey | src/game/services/player_lease_service.cpp:302-338 | Giving back a lease whose script is executed frees the key exactly if the game owned it or nobody did; another owner's key stays as it is. |
| Leases.TakingAFreeKey | src/game/services/player_lease_service.cpp:75-120 | An answered acquire of an untracked player is granted exactly if the key is free and the ttl is not zero, and the game then owns the key for exactly one ttl. |
| LeaseProtocol.LapsedLeaseIsFree | src/game/services/player_lease_service.cpp:75-120 | Without a release, another game's answered acquire is granted exactly from the moment the owner's ttl has passed. |
| TextForms.GeneratedTokenSurvives | src/game/services/player_lease_service.cpp:257-260 | Every generated token is such a token, so the owner read back is the owner written. |
| TextForms.LeaseKeyInjective | src/game/services/player_lease_service.cpp:222-225 | Different players have different lease keys. |
| TextForms.PlatformsCollide | src/game/services/player_directory_service.cpp:151-159 | Two platforms can collide at all if and only if one with its colon begins the other with its colon. |
| TextForms.DirectoryKeyCollisionExample | src/game/services/player_directory_service.cpp:151-159 | With a colon in a platform name two different accounts get one key. |
| TextForms.FormatExamples | src/game/services/player_lease_service.cpp:222-260 | A lease value, a token, a lease key, a receiver key and a directory key as other programs see them. |
| DirectoryProtocol.NextInv | src/game/services/player_directory_service.cpp:5-97 | Every command of every process keeps the invariant behind it (drawn ids are fresh, caches agree with Redis, the log is right). |
| DirectoryProtocol.RunInv | src/game/services/player_directory_service.cpp:5-97 | So it holds after every run from a start with an absent or large enough counter. |
| DirectoryProtocol.LocalIdsComeFromLostReplies | src/game/services/player_directory_service.cpp:58-97 | A step ends a call with a local id if and only if an increment or the write of an entry is not answered, or the counter cannot be incremented. |
| DirectoryProtocol.AnsweredCommandsFinish | src/game/services/player_directory_service.cpp:32-90 | Every answered command brings its call nearer to the end, whatever the other processes do in between. |
| DirectoryStarts.GoodContentsNeverShare | src/game/services/player_directory_service.cpp:5-97 | From such contents no run of answered commands shares an id. |
| DirectoryStarts.CountsIntoAnEntry | src/game/services/player_directory_service.cpp:58-73 | A counter below the id of an old entry counts into it, however large the gap, and gives the id to a second account. |
| DirectoryStarts.TextGivesLocalIds | src/game/services/player_directory_service.cpp:58-97 | A counter text that does not parse for INCRBY and is not reset sends every process to its own ids, which start alike. |
| DirectoryStarts.LowCounterSharesAnId | src/game/services/player_directory_service.cpp:34-57 | Whenever the counter is below 99999, two idle processes can reset it one after the other and give one id to any two new accounts. |
| DirectoryProtocol.LostIncrementSharesAnId | src/game/services/player_directory_service.cpp:58-97 | Two processes that lose the reply to their increment hand out the same local id. |
| DirectoryService.OthersStepsAreCovered | src/game/services/player_directory_service.cpp:5-97 | Every step of another process in the protocol is covered by the interference the service is proved under. |
| DirectoryService.StepGrowsRedis | src/game/services/player_directory_service.cpp:32-73 | No step takes an entry away or the counter back, and a new entry carries the id its writer drew. |
| DirectoryService.EntryStaysDistinct | src/game/services/player_directory_service.cpp:58-73 | An id drawn before others act is still unused when its entry is written, so ids stay distinct. |
| DirectoryService.PlayerDirectoryService.TryCreate | src/game/services/player_directory_service.cpp:32-73 | One round of the loop up to the conditional write of the entry. |
| DirectoryService.PlayerDirectoryService.EnsureCounter | src/game/services/player_directory_service.cpp:34-57 | With no reply lost, good contents have a counter afterwards, whatever the other processes do meanwhile. |
| DirectoryService.PlayerDirectoryService.Lookup | src/game/services/player_directory_service.cpp:99-125 | Answers from the cache or from Redis, remembers what it finds and creates nothing; none only if the key is not cached and, with an answer of Redis, not stored. |
| DirectoryProtocol.KnownKeysAreReturned | src/game/services/player_directory_service.cpp:5-32 | A cached key is answered at once and without Redis, a key that is in Redis by the first answered command; neither changes Redis or counts as created. |
| DirectoryProtocol.ReturnsAreCached | src/game/services/player_directory_service.cpp:5-97 | Every call that returns leaves its key cached with the id it returned. |
| Storage.CallKeepsCoherence | src/framework/storage/service.cpp:354-477 | From any entry, exactly when the cache is right after one call, told from the state before and the servers' answers: a call that changes the table decides it alone, by writing the cache or finding nothing stale there; any other call changes nothing about it. |
| Storage.PartialPutServesTheOldValue | src/framework/storage/service.cpp:384-391 | The report matters: after a partial put later gets answer the old value. |
| Storage.CacheKeyInjective | src/framework/storage/service.cpp:354-391 | Different entry keys have different cache keys. |
| Storage.PutThenGet | src/framework/storage/service.cpp:354-446 | A put works exactly if Maria takes it and otherwise changes nothing; after one that works the table has the value, and reads that Redis answers give it, from the cache or, with nothing cached, from Maria; which failures of Redis it reports. |
| Storage.DeleteThenGet | src/framework/storage/service.cpp:393-477 | The same for a delete, after which reads find nothing once the cache has been told. |
| Storage.GetFillsCache | src/framework/storage/service.cpp:393-446 | The five outcomes of a get; it changes only the cache, only by what it found in the table, and then the next one is answered without Maria. |
| Storage.StorageService.DatasetPut | src/framework/storage/service.cpp:354-391 | Table first, then cache; the entry afterwards and the status are those of the put, other entries keep theirs. |
| Storage.StorageService.DatasetGet | src/framework/storage/service.cpp:393-446 | Cache first, then table, filling the cache; other entries keep theirs. |
| Storage.StorageService.DatasetDelete | src/framework/storage/service.cpp:448-477 | Table first, then cache; other entries keep theirs. |
| Storage.StorageService.RedisSet | src/framework/storage/service.cpp:197-222 | The key is set if the command was executed; a lost reply is an error. |
| Storage.StorageService.RedisGet | src/framework/storage/service.cpp:256-290 | The value, nil, or an error. |
| Storage.StorageService.RedisDelete | src/framework/storage/service.cpp:292-319 | The key is gone if the command was executed; a lost reply is an error. |
| PlayerRuns.LostThenReleasedIsStuck | src/game/services/player_session_service.cpp:326-412 | Losing the lease, reconciling and then releasing leads to unloading. |
| PlayerRuns.StuckUntilBoundByHand | src/game/services/player_session_service.cpp:80-83 | From there no call helps and every activation is refused, until the player is bound by hand. |
| PlayerRuns.CleanRecordsAreStored | src/game/services/player_repository.cpp:7-83 | In one game, as the only writer, and without a partial put: every loaded record that is not dirty equals the stored value, after every run. |
| PlayerRuns.AwayKeepsStored | src/game/services/player_repository.cpp:7-95 | While a player is away, no step of the process changes what is stored, however many activations are tried and fail. |
| PlayerRuns.ActivationReadsStored | src/game/services/player_session_service.cpp:139-170 | What such an activation has in memory: the stored data, clean, or a default record without Maria. |
| PlayerRuns.ReleasedThenStartsOver | src/game/services/player_repository.cpp:37-44 | The excepted case is reached: stored data, a clean release, and a permitted activation without Maria that starts over. |
| PlayerRuns.RecoveryKeepsMemory | src/game/services/player_session_service.cpp:92-137 | An activation that takes a lost lease again does not read the store: the player is online, bound and running with the record it had, whatever is stored by now. |
| PlayerRuns.ExpiryOverwritesForeignData | src/game/services/player_session_service.cpp:265-324 | A dirty session that has lost its lease, was reconciled and expires writes its data over whatever has been stored since. |
| PlayerRuns.RecoveryOverwritesForeignData | src/game/services/player_session_service.cpp:92-137 | So does one that takes its lease again, with the next rename and flush. |
| Handover.TrackerIsOwner | src/game/services/player_lease_service.cpp:75-120 | At most one game tracks the player, and it owns the key. |
| Handover.NextInv | src/game/services/player_session_service.cpp:34-297 | Every call, refresh, crash and passing of time keeps the agreement of leases and sessions of all games. |
| Handover.LeavingFreesTheLease | src/game/services/player_session_service.cpp:271-297 | After a leave whose release is executed no game tracks the player or has a session of it, and the key is free. |
| Handover.NextGameIsGranted | src/game/services/player_lease_service.cpp:75-120 | So the next answered acquire of any game is granted. |
| PlayerRuns.NextInv | src/game/services/player_session_service.cpp:34-412 | Every step keeps the agreement of session, repository, runtime, binding and lease. |
| PlayerRuns.RunInv | src/game/services/player_session_service.cpp:34-412 | So it holds after every run from an untouched player. |
| PlayerRuns.BindInv | src/game/services/ipc_client_service.cpp:140-189 | Binding and unbinding keep host set and directory in step; a refused bind changes nothing. |
| PlayerRuns.SettleInv | src/game/services/player_session_service.cpp:145-158 | After the bind-and-start part of an activation: all of it on success, the lease given back and a new record dropped on failure. |
| SessionLife.ActivatedIsReachable | src/game/services/player_session_service.cpp:34-242 | Right after an activation messages are handled, no sweep and no reconciliation touches the player, and it is detached from its own gate and from no other. |
| SessionLife.DetachAchieves | src/game/services/player_session_service.cpp:189-242 | Exactly an online player is detached, by its gate or without a check, and then has no gate and its deadline; a refusal changes nothing. |
| SessionLife.ReconcileAchieves | src/game/services/player_session_service.cpp:362-412 | A session that lost its lease is detached and unbound, with what is in memory and stored as it was. |
| SessionLife.LostPlayersAreTold | src/game/services/player_session_service.cpp:362-412 | After every run the gate is told of a loss exactly for an online player whose last activation came through a full gate. |
| SessionLife.LoadAchieves | src/game/services/player_repository.cpp:7-54 | What a load that works has in memory: the cached or stored value as it is, and where nothing is found a new player at level one with nothing gained, created now and due for its first write. |
| SessionLife.DefaultNamesDiffer | src/game/services/player_repository.cpp:162-180 | New players have different names. |
| SessionLife.RecordChanges | src/game/services/player_repository.cpp:97-126 | A login is counted and dated, a rename sets the name; both mark a loaded record as changed now and touch nothing else. |
| SessionLife.AnswersOfForward | src/game/services/player_message_service.cpp:51-80 | In every reachable state the answer of a forwarded message is that of the first guard that fails, and only a handled one has an effect. |
| SessionLife.EffectOfMessages | src/game/services/player_runtime_service.cpp:3-49 | A handled echo leaves the record alone, a handled rename changes the name and the marks of a change. |
| GameServices.PlayerRepository.LoadPlayer | src/game/services/player_repository.cpp:7-54 | The record, the entry and the result of a load: stored data, a corrupted value, default data on not-found, default data without Maria only where allowed, or a failure; other players untouched. |
| GameServices.PlayerRepository.InitializeDefaultPlayerData | src/game/services/player_repository.cpp:162-180 | The record of a player without stored data, waiting for its first flush. |
| GameServices.PlayerRepository.FlushPlayer | src/game/services/player_repository.cpp:56-83 | Only a loaded record is stored, and only a put that works clears its flags; other players untouched. |
| GameServices.PlayerRepository.ReleasePlayer | src/game/services/player_repository.cpp:85-95 | Drops the record, or fails without one. |
| GameServices.PlayerRepository.TouchLoginOf | src/game/services/player_repository.cpp:97-111 | Counts a login on a loaded record and makes it dirty. |
| GameServices.PlayerRepository.SetDisplayNameOf | src/game/services/player_repository.cpp:113-126 | Renames a loaded record and makes it dirty. |
| GameServices.PlayerRuntimeService.EnsurePlayer | src/game/services/player_runtime_service.cpp:78-97 | Starts an instance for a loaded record only; an existing one keeps its count. |
| GameServices.PlayerRuntimeService.RemovePlayer | src/game/services/player_runtime_service.cpp:99-107 | Removes the instance, or fails without one. |
| GameServices.PlayerRuntimeService.Handle | src/game/services/player_runtime_service.cpp:3-49 | Echo and rename against the repository's record: the count, the record and the error. |
| GameServices.GameIpcClientService.Bind | src/framework/ipc/receiver/local_receiver_directory.cpp:26-42 | Binds unless another owner is bound; versions start at 1 and stay. |
| GameServices.GameIpcClientService.Rebind | src/framework/ipc/receiver/local_receiver_directory.cpp:44-62 | Hands a receiver over from its owner only, and counts the version up. |
| GameServices.GameIpcClientService.Invalidate | src/framework/ipc/receiver/local_receiver_directory.cpp:64-83 | Removes exactly the binding with this owner and version. |
| GameServices.GameIpcClientService.BindLocalPlayer | src/game/services/ipc_client_service.cpp:140-157 | Host set and directory together, with the host undone when the directory refuses. |
| GameServices.GameIpcClientService.UnbindLocalPlayer | src/game/services/ipc_client_service.cpp:159-189 | Directory first, then host; any failure leaves both. |
| GameServices.GameIpcClientService.BindRemotePlayer | src/game/services/ipc_client_service.cpp:191-209 | Binds the player to the first discovered process with the service type and instance. |
| GameServices.StoreKeysDiffer | src/game/services/player_repository.cpp:19-21 | Players have different entry keys. |
| GameServices.RemoteBindAchieves | src/game/services/ipc_client_service.cpp:191-209 | A remote bind names the first discovered process with the id and keeps the version; it is refused exactly without one or for a player bound to another owner, and then changes nothing. |
| GameServices.FirstWithIsFirst | src/game/services/ipc_client_service.cpp:191-209 | The first process with the id, or there is none. |
| SessionService.PlayerSessionService.ActivatePlayer | src/game/services/player_session_service.cpp:34-170 | The player's state in all services afterwards and the result, on every branch and rollback; all other players untouched. The lease is granted exactly if the server's answer to the acquire says so, and the keys in Redis are those of the acquire and, when the lease is not kept, of a release. |
| SessionService.PlayerSessionService.RecoverPlayer | src/game/services/player_session_service.cpp:92-137 | The path of a session that lost its lease; a lease that is not kept goes back to Redis. |
| SessionService.PlayerSessionService.BringIn | src/game/services/player_session_service.cpp:139-170 | The path of a player without a session; a lease that is not kept goes back to Redis. |
| SessionService.PlayerSessionService.RollBack | src/game/services/player_session_service.cpp:145-158 | What a failed bind or start undoes; the lease goes back to Redis. |
| SessionService.PlayerSessionService.DetachFrom | src/game/services/player_session_service.cpp:189-242 | Both overloads of the detach, with and without the gate check. |
| SessionService.PlayerSessionService.Release | src/game/services/player_session_service.cpp:244-297 | Flush, unbind, stop, drop, give back: the state, the keys in Redis and the result on every branch. |
| SessionService.PlayerSessionService.ExpireDetachedPlayers | src/game/services/player_session_service.cpp:299-324 | Exactly the players whose deadline has passed are released, each as if alone, in the services and in Redis, and the count is that of the successful releases. |
| SessionService.PlayerSessionService.ReconcileLeaseLosses | src/game/services/player_session_service.cpp:326-412 | Exactly the sessions that lost their lease are unbound, online ones become detached, and the kicked are those with a gate. |
| SessionService.PlayerSessionService.ForwardMessage | src/game/services/player_message_service.cpp:51-80 | The three guards of a forwarded message and the handler behind them. |
| SessionService.SweptStep | src/game/services/player_session_service.cpp:299-324 | One release more in a sweep: the others keep what they have. |
| SessionService.SweptLeasesStep | src/game/services/player_session_service.cpp:299-324 | One release more in a sweep: its lease is kept or goes back on its own, all other keys and leases are as they were. |
| Leases.OtherLeasesUntouched | src/game/services/player_lease_service.cpp:75-144 | Taking and giving back one player's lease leaves the keys and leases of all others alone. |
| SessionService.ReconciledStep | src/game/services/player_session_service.cpp:362-412 | One player more in a reconcile: the others keep what they have, and the kicked list grows by exactly the right player. |
| Persistence.PlayerPersistenceService.ScanOne | src/game/services/player_persistence_service.cpp:102-160 | One player: the lease check, the decision, the flush and the counters. |
| Persistence.PlayerPersistenceService.NoteResult | src/game/services/player_persistence_service.cpp:134-159 | The retry state and the counters after an attempt. |
| Persistence.PlayerPersistenceService.Recount | src/game/services/player_persistence_service.cpp:109-118 | A flagged record counts when it is seen, and no longer once its flush has worked. |
| Persistence.ComputeRetryDelayMs | src/game/services/player_persistence_service.cpp:195-216 | The loop computes the delay, and no product leaves 64 bits for any 32-bit settings. |
| Persistence.RetryDelayGrows | src/game/services/player_persistence_service.cpp:195-216 | The delay never shrinks with more failures, never exceeds the landing time and stays the same from the fourth failure on. |
| Persistence.FlushedByOwnerOrStale | src/game/services/player_persistence_service.cpp:119-133 | In a deployment of games: a scan flushes a player only while its game owns the lease, or at least a full ttl after its last confirmed refresh; of two games tracking the player, the one that acquired first is the stale one. |
| Persistence.VisitMeans | src/game/services/player_persistence_service.cpp:84-160 | A flush is attempted only with a local lease and a dirty record, and in backoff only for a first write; afterwards the table holds the record's data, or the record is as before and the next try lies within the landing time. |
| Persistence.RetryDelayDoubles | src/game/services/player_persistence_service.cpp:195-216 | The delay starts at the shortest landing time, each of the next three failures doubles it, and the landing time cuts it off; five seconds without a dataset. |
| Persistence.ScanStepped | src/game/services/player_persistence_service.cpp:102-160 | One visit more keeps the counts right and every other player as it was. |
| Login.PartialPutIsForgotten | src/game/services/player_repository.cpp:29-43 | Without the condition on accesses this fails: a put that reaches Maria and not Redis is answered with default data once Maria is away. |
| Login.RunInv | src/game/services/player_login_service.cpp:52-93 | After every run, ids without a directory entry were never stored and the cache is complete for the ids that are new in the run. |
| Login.LoadIsRightExactly | src/game/services/player_repository.cpp:7-54 | For any entry, exactly when a load that succeeds yields the stored data, or default data where nothing is stored: cached data must be those of the table, and without cached data Maria must be there or default data be right. |
| Login.CreatedIsNew | src/game/services/player_directory_service.cpp:58-73 | An id that some call has created was not in the directory before the run. |
| Login.ResponseTells | src/game/services/player_login_service.cpp:13-20 | What a player is told: ok exactly if he is online through the gate, held elsewhere exactly if the lease was asked for and another game has it, and otherwise the text of the failure. |
| Login.PlayerLoginService.HandleLoginRequest | src/game/services/player_login_service.cpp:52-93 | The login activates the id the directory gives, with the directory's own created flag as the permission to create: a permission without a local id means that the key had no entry before and the id is new and no other key's. Response, error code, lease and the states of all players. |
| Login.PlayerLoginService.HandleReconnectRequest | src/game/services/player_login_service.cpp:95-130 | A reconnect activates without that permission; response, error code, lease and the states of all players. |
| Login.PlayerLoginService.HandlePlayerDisconnected | src/game/services/player_login_service.cpp:132-151 | Detaches the player of this gate; no session is no error. |
| Base64.DecodeEncodedFrom | src/framework/ipc/discovery/etcd_discovery.cpp:61-82 | The same from any value left in the accumulator. |
| Base64.EncodedLength | src/framework/ipc/discovery/etcd_sdk_discovery_backend.cpp:50-90 | The encoding of n bytes has 4 * ceil(n / 3) characters. |
| Base64.DecodeIsRobust | src/framework/ipc/discovery/etcd_discovery.cpp:61-82 | Foreign characters between the letters, anything after the padding and missing padding do not change what is decoded. |
| Base64.EscapeLeavesEncoding | src/framework/ipc/discovery/etcd_sdk_discovery_backend.cpp:92-137 | Escaping for JSON leaves an encoding as it is. |
| Base64.LettersOfAlphabet | src/framework/ipc/discovery/etcd_sdk_discovery_backend.cpp:52-53 | The 64 letters are those of the alphabet text, in its order. |
| Base64.PaddingIsExact | src/framework/ipc/discovery/etcd_sdk_discovery_backend.cpp:50-90 | As many letters as the bits need, nothing but letters, and then the padding of the last group. |
| Base64.StandardExamples | src/framework/ipc/discovery/etcd_sdk_discovery_backend.cpp:50-90 | The standard's examples of one, two and three bytes. |
| Base64.LongestStandardExample | src/framework/ipc/discovery/etcd_sdk_discovery_backend.cpp:50-90 | The standard's example of six bytes. |
| Base64.ReadInvertsEscape | src/framework/ipc/discovery/etcd_sdk_discovery_backend.cpp:92-137 | A reader of JSON strings gets every text back from its escaped form, and finds in it no quotation mark and no control character that ends or breaks the string. |
| Base64.Base64Encode | src/framework/ipc/discovery/etcd_sdk_discovery_backend.cpp:50-90 | The loop over groups of three and the two padded tails. |
| Base64.Base64Decode | src/framework/ipc/discovery/etcd_discovery.cpp:38-83 | The loop over the text with its 32-bit accumulator. |
| Base64.JsonEscape | src/framework/ipc/discovery/etcd_sdk_discovery_backend.cpp:92-137 | The loop over the characters. |
| PrefixRange.EndIsAMarkerOrABound | src/framework/ipc/discovery/etcd_sdk_discovery_backend.cpp:35-48 | The end is the marker for no upper bound if and only if the prefix is empty or all 0xFF. |
| PrefixRange.PrefixRangeEnd | src/framework/ipc/discovery/etcd_sdk_discovery_backend.cpp:35-48 | The loop from the last byte backwards. |
| Framing.HeaderRoundTrip | src/framework/ipc/transport/frame.h:39-70 | A header read from the bytes of a header is that header. |
| Framing.BytesRoundTrip | src/framework/ipc/transport/frame.h:39-70 | And every twelve bytes are the bytes of the header read from them. |
| Framing.HeaderLayout | src/framework/ipc/transport/frame.h:39-70 | Magic, version, kind and length lie in this order, each with its lowest byte first. |
| Framing.SentIsRead | src/framework/ipc/transport/tcp_transport.cpp:246-293 | Frames sent whole one after the other are read as exactly these frames. |
| Framing.PartlySent | src/framework/ipc/transport/tcp_transport.cpp:128-139 | After whole frames and a part of one more, the peer gets the whole ones. |
| Framing.ForeignMagicEnds | src/framework/ipc/transport/frame.h:54-70 | A frame with a foreign magic ends what the reader gets. |
| Framing.SerializeFrameHeader | src/framework/ipc/transport/frame.h:39-51 | Four field copies into a twelve-byte array give the bytes of the header. |
| Framing.DeserializeFrameHeader | src/framework/ipc/transport/frame.h:54-70 | Fails on missing or short data, and otherwise if and only if the magic is not the protocol's. |
| Transport.ReadExact | src/framework/ipc/transport/tcp_transport.cpp:389-403 | Terminates; fills exactly size bytes from the stream, or fails because the stream ends or breaks before. |
| Transport.WriteExact | src/framework/ipc/transport/tcp_transport.cpp:405-419 | Terminates; sends exactly size bytes, or fails after some because the connection breaks. |
| Transport.TcpTransport.Send | src/framework/ipc/transport/tcp_transport.cpp:115-140 | A frame goes out whole, or the connection is dropped, the disconnect reported and a proper part was sent. |
| Transport.TcpTransport.ReadFrame | src/framework/ipc/transport/tcp_transport.cpp:260-277 | One round of the reader: the first frame of the stream, or the end of the reading. |
| Transport.TcpTransport.ReaderLoop | src/framework/ipc/transport/tcp_transport.cpp:246-296 | The handler is given exactly the frames of the stream, or its first ones if the connection breaks; then the connection is dropped once. |
| Transport.TcpTransport.AddConnection | src/framework/ipc/transport/tcp_transport.cpp:298-321 | Connection ids are never used twice. |
| Transport.TcpTransport.HandleDisconnect | src/framework/ipc/transport/tcp_transport.cpp:323-373 | A connection is dropped, and reported once unless the drop is a silent one. |
| Membership.QueueDiffEvents | src/framework/ipc/discovery/etcd_discovery.cpp:85-118 | The events are the changes of the keys, each key at most once, and no event for an unchanged member. |
| Membership.DiffAt | src/framework/ipc/discovery/etcd_discovery.cpp:85-118 | Over any map, replaying a diff sets the changed keys and leaves the others. |
| Membership.DiffTells | src/framework/ipc/discovery/etcd_discovery.cpp:85-118 | Added members were not there and are, updated ones had other data, removed ones are gone, each with its present or last descriptor; exactly the members that differ are mentioned. |
| Membership.LastWithIsLast | src/framework/ipc/discovery/etcd_discovery.cpp:321-344 | The value that counts is the last one with the key. |
| Membership.OwnRegistrationStaysSilent | src/framework/ipc/discovery/etcd_discovery.cpp:186-221 | A process's own registration is not announced by a snapshot that agrees with it. |
| Membership.KeysAreDistinct | src/framework/ipc/discovery/etcd_discovery.cpp:416-419 | Keys are equal only for the same 32-bit service type and instance. |
| Membership.EtcdDiscovery.ApplySnapshot | src/framework/ipc/discovery/etcd_discovery.cpp:346-351 | The map is the snapshot and the queue has grown by a diff; drained and queued events replay to the map except at keys written silently since. |
| Membership.EtcdDiscovery.RefreshSnapshot | src/framework/ipc/discovery/etcd_discovery.cpp:249-271 | Succeeds if and only if the reading and all values parse; a failed refresh changes only its counter. |
| Membership.EtcdDiscovery.ParseSnapshot | src/framework/ipc/discovery/etcd_discovery.cpp:321-344 | All values parse or none is taken; the last value of a key counts. |
| Membership.EtcdDiscovery.RegisterSelf | src/framework/ipc/discovery/etcd_discovery.cpp:186-221 | When it succeeds, with the one retry under a new lease, and the lease in use afterwards; the map is written without an event. |
| Membership.EtcdDiscovery.Remove | src/framework/ipc/discovery/etcd_discovery.cpp:353-369 | Erases without an event; removing itself also forgets the lease. |
| Membership.EtcdDiscovery.KeepAliveOnce | src/framework/ipc/discovery/etcd_discovery.cpp:223-247 | A failed keepalive forgets the lease. |
| Membership.EtcdDiscovery.DrainEvents | src/framework/ipc/discovery/etcd_discovery.cpp:371-377 | Hands out all queued events in order, once. |
| Membership.EtcdDiscovery.Find | src/framework/ipc/discovery/etcd_discovery.cpp:379-388 | Finds exactly the member with the id. |
| Handshake.AtMostFourFrames | src/framework/ipc/link/link_manager.cpp:123-159 | No run sends more than four frames. |
| Handshake.OrderlyRunsKnowTheirPeer | src/framework/ipc/link/link_manager.cpp:123-159 | If connected comes before the first frame at both sides, an active link always leads to the peer. |
| Handshake.AnswerBeforeHello | src/framework/ipc/link/link_manager.cpp:48-68 | Such a run. |
| Handshake.RunInv | src/framework/ipc/link/link_manager.cpp:11-77 | After every run, links and frames on the way are determined by the events each side has had. |
| Links.OnlyTheSameVersionIsCompatible | src/framework/ipc/link/control_codec.cpp:32-40 | As hellos are written, exactly the same non-zero version is accepted. |
| Links.LinkManager.OnConnected | src/framework/ipc/link/link_manager.cpp:13-21 | The link is handshaking, keeps a known peer, and a hello is queued. |
| Links.LinkManager.OnFrame | src/framework/ipc/link/link_manager.cpp:28-77 | The link, the queued answers and the result for every control message; other links untouched. |
| Links.LinkManager.HandleHello | src/framework/ipc/link/link_manager.cpp:123-159 | The same for a hello. |
| Links.AnswersOfControl | src/framework/ipc/link/link_manager.cpp:28-77 | A ping is answered with one pong in every state, pongs, closes and acknowledgements with nothing, a hello exactly if it names its sender; a message that works changes a state only to active. |
| Links.LinkManager.FindConnection | src/framework/ipc/link/link_manager.cpp:104-114 | A connection with an active link to the target, or none exists. |
| Links.LinkManager.HasHealthyDirectLink | src/framework/ipc/link/link_manager.cpp:79-89 | Whether there is one. |
| Links.LinkManager.DrainOutboundFrames | src/framework/ipc/link/link_manager.cpp:116-121 | Hands out all queued frames in order, once. |
| Network.UnawareProcessBounces | src/framework/ipc/routing/relay_first_policy.cpp:90-110 | With one visible relay, and the other processes with its id seeing themselves: an envelope for a process is forwarded without end from it if and only if it does not find itself, has no link to what it finds, and it and the relay can hand the envelope to each other. |
| Network.ForwardedUnchanged | src/framework/ipc/messaging/messenger.cpp:169-198 | Forwarding hands on the same envelope. |
| Network.FirstSendIsAForward | src/framework/ipc/messaging/messenger.cpp:95-109 | A first send to a known process is decided like a forward. |
| Messaging.WantedMembers | src/framework/ipc/routing/relay_first_policy.cpp:31-57 | The members a broadcast is for are exactly those of the service with the labels, the sender only if included, each once. |
| Messaging.SingleDelivers | src/framework/ipc/messaging/messenger.cpp:95-119 | A direct envelope for one known process: dispatched here exactly if that is this process and the payload is registered, handed over a link to it, or to the first relay among the members, or refused with the reason; one effect at most. |
| Messaging.AddressDelivers | src/framework/ipc/routing/relay_first_policy.cpp:90-110 | The same for an envelope that names a process, with the first member of that id or incarnation 0. |
| Messaging.MultiReachesEach | src/framework/ipc/messaging/messenger.cpp:130-154 | An envelope for several processes is delivered to each of them, in order. |
| Messaging.UnresolvedIsDropped | src/framework/ipc/receiver/local_receiver_directory.cpp:8-22 | An envelope for a receiver the directory does not have is dropped without effect. |
| Routing.FirstRelay | src/framework/ipc/routing/relay_first_policy.cpp:127-141 | The relay in use is the first member of the relay service that is not this process. |
| Routing.TargetIsKnown | src/framework/ipc/routing/relay_first_policy.cpp:90-110 | A process address means the first member with the id, or incarnation 0. |
| Messaging.PerformedIsPrefix | src/framework/ipc/messaging/messenger.cpp:130-154 | What a send does is the beginning of its plan, and all of it if and only if it succeeds. |
| Messaging.SingleDoesNotFanOut | src/framework/ipc/messaging/messenger.cpp:130-154 | A step of a fan-out makes only single-target sends, so the recursion ends. |
| Messaging.OnlyDirectEnvelopesAreSent | src/framework/ipc/messaging/messenger.cpp:121-154 | Every envelope that is handed to the sender is a direct one. |
| Messaging.Messenger.SendEnvelope | src/framework/ipc/messaging/messenger.cpp:95-157 | The effects and the result of a send, with the recursion over the hops. |
| Messaging.Messenger.SendToHops | src/framework/ipc/messaging/messenger.cpp:130-152 | The loop over the hops, up to the first failure. |
| Messaging.Messenger.DispatchLocal | src/framework/ipc/messaging/messenger.cpp:159-167 | Only registered payload types are dispatched. |
| Messaging.Messenger.HandleIncomingFrame | src/framework/ipc/messaging/messenger.cpp:169-198 | What an incoming frame leads to, on the log and the result: a direct envelope goes to the process it carries, or to the owner the directory has, or to the process it names, dispatched here, handed over a link or to the first relay; without an owner it is dropped; anything but a data frame that parses is refused. |
| Messaging.Messenger.SendToProcess | src/framework/ipc/messaging/messenger.cpp:7-27 | A send to a process id: dispatched here for the own id, and otherwise delivered to the process the members know under it. |
| Messaging.Messenger.BroadcastToReceiver | src/framework/ipc/messaging/messenger.cpp:43-71 | Only services, only their own scope. |
| Routing.MatchingIsExact | src/framework/ipc/routing/relay_first_policy.cpp:43-54 | The hops of a broadcast are exactly the matching members. |
| Routing.MatchingIsDistinct | src/framework/ipc/routing/relay_first_policy.cpp:43-54 | Each once. |
| Routing.MatchesLabels | src/framework/ipc/routing/relay_first_policy.cpp:7-26 | True if and only if every required label is among the process's labels. |
| Routing.ExpandBroadcast | src/framework/ipc/routing/relay_first_policy.cpp:31-57 | The loop that fills the hops. |
| Routing.ResolveRoute | src/framework/ipc/routing/relay_first_policy.cpp:29-111 | The decision for every location kind, with the fall through to the address. |
| Routing.OnlyBroadcastAndMultiFanOut | src/framework/ipc/routing/relay_first_policy.cpp:29-111 | Only a broadcast or a receiver in several processes fans out, and a broadcast does nothing else. |

## Left out

Hypotheses a statement needs, beside those named above:

- LeaseProtocol.MutualExclusion: games have distinct instance ids, clocks do not run backwards and Redis keeps its keys, because nothing in the code handles the opposite.
- DirectoryProtocol.IdsAreUnique: no call ends with a local id and an initialising SET NX of the counter reaches Redis, because the code gives no guarantee otherwise; all other replies may get lost.
- DirectoryStarts.UniqueExactlyFromGoodContents: at least two processes, and a counter that does not reach the largest 64-bit number within the run.
- DirectoryService.PlayerDirectoryService.EnsureCounter: does not state the reset from bad contents, because the other processes may do anything to those meanwhile; DirectoryProtocol and DirectoryStarts have every command as a step.
- PlayerRuns.ReleaseIsAllOrNothing: for a held lease; the general case is PlayerRuns.ReleaseCompletesExactlyWhenBound.
- PlayerRuns.CleanRecordsAreStored: a single writing process and no partial put, because the repository never reads an entry again that it has loaded; for any number of games it is Handover.CleanRecordsAreStoredEverywhere.
- Handover.HandoverIsExact: no tracked lease of the player runs out and no reply to its refresh gets lost, because writes do not ask for the lease; calls of different games are atomic steps, the lease lasts through each.
- Handover.HandoverWorks: the release is executed and the acquire answered, because a game that is not granted the lease is refused until the ttl has passed; the next game enters at once, and Handover.HandoverIsExact has anything in between.
- Durability.ChangesAreSavedInTime: Maria takes the writes of the scans and the lease is not lost, because a scan skips a player without a lease; what failed writes do to the next attempt is Persistence.RetryOverScansIsExact.
- Login.LoginNeverReplacesStoredData: ids are stored only after the directory has returned them; a reconnect for an id nobody created is outside.
- Network.ResolvedEndsWithinTwo: one visible relay, and a link that is active towards a process leads to it; routes over several relays have no bound.
- Framing.FramesSurvive: the header's length is the payload's size, as all senders in the repository set it.
- Membership.EtcdDiscovery.RegisterSelf: keys written silently are named in a ghost set, because their events are never queued.

What the model replaces:

- Calls of the session, repository and IPC services are atomic steps; two calls of one process that interleave inside `ReconcileLeaseLosses` or `ActivatePlayer` are not modelled.
- Sockets, threads, `select`, gRPC, hiredis and MariaDB are replaced by maps, byte streams and free outcomes. A Maria statement that fails has no effect; a Redis command whose reply is lost may have been executed.
- Protobuf and JSON bodies are datatypes, and reading back what was written gives the same value; a stored value may also be corrupt.
- Lease entries hold the owner instead of its text, which determines it (TextForms.BuildValueInjective); receiver and store keys are held per player in the same way.
- Clocks, tokens, server answers and the order in which hash maps are gone through are parameters or free choices.
- Error texts of Redis and MariaDB are one status per kind of failure; a failed load or store of the repository has one text.
- One dataset is configured and all services are registered; the branches that refuse a call because a service is missing are not modelled.
- The header is in the byte order of a little-endian host, as the frame code copies native integers.
- In Messaging a messenger's view of members and links does not change during one send.
- Receivers behind DispatchLocal are one effect with a free result.

Not modelled:

- Results of commands for unknown targets; disabling, enabling and refreshing connections are single assignments.
- Runtime commands, configuration, loader, logging, status snapshots and metrics.
- Gate services and the simulation client.
- Batching of the application base and the flags of the IPC node service.
- The watch loop, the auto-connect loop and the accept loop; a snapshot, a connection or a frame is a step.
- MariaExecute, the migration of the entries table and the migration commands.
- Clear, teardown and reload of the IPC runtime, and changes of a process's own descriptor.
- MemberKey and the key space of etcd beyond PrefixRange.
