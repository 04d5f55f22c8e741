# TempCDN, verified

A Dafny model of TempCDN's temporary files as a protocol of several instances that share one
`files` table and one object store, and of the smaller state machines around it. `dafny verify
dfyconfig.toml` checks everything.

## How it is modelled

**The file protocol** (`Lifecycle.dfy`). The state is the clock, the table, the object store,
what every operation under way knows, and a ledger of faults. Uploads, early deletes and sweeps
are sequences of single storage calls; calls of different operations interleave freely, each
may fail with or without having taken effect, and an operation may stop between any two.
`LifecycleInvariants.dfy` is what every step keeps. On it rest `Accounting.dfy` (orphans and
dangling rows), `Durability.dfy`, `Dedup.dfy`, `DedupWindows.dfy`, `Confluence.dfy`, `SweepVisibility.dfy`, and
`Drain.dfy`, which follows one sweeper from tick to tick.

**The operations themselves** are methods in the order of the Go code (`UploadService.dfy`,
`FileService.dfy`, `Sweeper.dfy`). Before each call to the shared storage
(`SharedStorage.dfy`) the rest of the deployment takes any steps it likes. Each method is proved
to take exactly the protocol steps its result stands for, so that what holds of all runs of the
protocol holds while it executes. Every call may fail; `reliable` and `callsSucceed` say that none
does, and what an operation owes its caller then is stated too. The queries are in `FilesTable.dfy` and `FileStats.dfy`, the
reader chain of an upload in `Streaming.dfy`, names and keys in `FileNames.dfy` and
`ObjectKeys.dfy`.

**Around it**: upload rules and their propagation (`Validation.dfy`, `Settings.dfy`,
`Configuration.dfy`), admin sessions (`Sessions.dfy`), API keys (`ApiKeys.dfy`), node liveness in
time (`Nodes.dfy`, `NodeLiveness.dfy`) and the migration runner (`Migrations.dfy`). Where several
callers race, the steps of one call are separate events there too.

## What is assumed

- One clock that all instances share and that does not go back.
- New file ids, session tokens and API keys are fresh; file ids contain no dot (UUIDs do not).
- Each SQL statement and each transaction is atomic. Deleting an object that is not there
  succeeds.
- SHA-256, bcrypt, `http.DetectContentType` and white space are arbitrary functions. Only
  conclusions about a checksum are drawn, never about content from equal checksums.
- Lower-casing works per character, fixes `.` and `/` and produces neither from anything else.

## Where the code and its documentation differ

The model follows the code.

- README.md:951-954 says two instances never claim the same expired row. `FindExpired` commits
  before it returns (internal/metadata/postgres_repository_files.go:100), so the row locks are
  gone when the deletes begin: `Confluence.TwoSweepsCanDrawOneRow`. That this does no harm is
  `Confluence.OverlappingSweepsActAsOne`.
- README.md:59 promises deduplication without a condition. Nothing in the schema enforces it; it holds
  exactly as long as uploads of one checksum do not overlap: `Dedup.DuplicatesComeFromOverlapOnly`.
  The record it returns may be one whose object is gone already or about to go:
  `Durability.DuplicateStaysIffSettled`.
- An unexpired file can lose its object without its delete token: an insert that took effect although it
  reported an error is cleaned up after (internal/upload/service.go:141-144) and leaves its row behind.
  `Durability.CleanUpCanTakeALiveObject`; this is the only other way, `Durability.LiveObjectFallsToItsToken`.
- README.md:228 suggests that use extends a session. It does not:
  `Sessions.VerifyingNeitherExtendsNorRevives`.
- The startup check on the node settings (internal/config/config.go:174-176) is meant to protect a
  healthy node with one slow heartbeat. It is exactly the condition for heartbeats that take no time
  at all and are never lost; it admits settings under which a single lost one flags the node:
  `NodeLiveness.ConfigCheckIsTheInstantCase`.
- The admin API takes any blocked extension that starts with a dot (internal/admin/service.go:274-279).
  One with a second dot or a slash does not block its own extension:
  `FileNames.EntryBlocksItsOwnExtensionIff`.
- `IsExpired` is strict while SQL counts the instant of expiry as expired:
  `FileStats.ActiveOrSweepable`.

## Model

| member | source | states |
|---|---|---|
| Accounting.OrphansAreAccountedFor | internal/upload/service.go:116-144 | in every reachable state each object has a row, or an upload holding it, or was leaked by a step about that very object: an ignored delete of it that did nothing, a put of it that took effect although it reported an error, the stop of the upload that held it; and those with neither row nor upload are no more than such steps |
| Accounting.SweepsMakeNoOrphans | internal/sweeper/sweeper.go:68-84 | no step of a sweep, failed or not, adds an orphan |
| Accounting.DanglingRowHasItsDelete | internal/file/service.go:66-78 | a row whose object is missing is being worked on by a delete of this very row between its object step and its row step, or such a step of this very row gave up: a failed row delete, a stop, an object call that took effect but reported an error, or the clean-up of an insert that took effect |
| Accounting.DanglingRowsAreAccountedFor | internal/file/service.go:66-78 | the dangling rows no delete is working on are no more than the deletes that gave up |
| Accounting.StepOrphans | internal/file/service.go:74-78 | a step exposes no further object, or at most one if it is one of the faults the ledger counts |
| Accounting.StepDangling | internal/sweeper/sweeper.go:69-78 | a step leaves no further row without object and delete, or at most one if it is a delete giving up |
| LifecycleInvariants.StepInv | internal/upload/service.go:96-144 | every step keeps: rows and operations name minted records, keys are distinct, objects hold the bytes of their record, a record between put and insert has one holder and its object |
| LifecycleInvariants.RunInv | internal/upload/service.go:96-144 | so does every run |
| Durability.StoredBytesMatchTheRecord | internal/upload/service.go:104-138 | in every reachable state length and hash of a row's object are those of the row |
| Durability.WhoRemovesAnObject | internal/file/service.go:66-78 | a row loses its object only to an early delete past the token check, a sweep after expiry, or the clean-up of an insert that took effect though it failed |
| Durability.LiveObjectFallsToItsToken | internal/file/service.go:66-74 | in every run an unexpired row loses its object only to a delete that showed a token whose hash is the one this row stores, or to the clean-up of its own insert |
| Durability.CleanUpCanTakeALiveObject | internal/upload/service.go:141-144 | the second case occurs: from any state with an upload before its insert, an insert that takes effect but reports an error, and its clean-up, leave the row without its object, unexpired if it was to be |
| Durability.CleanUpIsPendingIff | internal/upload/service.go:141-144 | exactly when: some step other than an early delete can take the object of an unexpired row if and only if a clean-up after an insert of this very row is pending |
| Durability.OnlyATokenTakesALiveObject | internal/file/service.go:66-74 | in runs without such inserts only a shown token takes the object of an unexpired row |
| Durability.WhoRemovesARow | internal/sweeper/sweeper.go:75-78 | a row goes only with an early delete past the token check or a sweep whose cutoff it has expired at |
| Durability.UploadedFileStaysUntilExpiry | internal/upload/service.go:141-146 | after a successful insert row and object are there at every instant before expiry, whatever else runs, unless the file's token is presented |
| Durability.StaysIffSettled | internal/file/service.go:66-78 | the exact condition for any unexpired row: every run without its token keeps row and object until expiry, if and only if both are there now, no early delete has passed the token check for it, and no clean-up after its insert is pending |
| Durability.DuplicateStaysIffSettled | internal/upload/service.go:96-99 | the file a Duplicate answer names stays until its expiry in every run without its token, if and only if the row is so settled at the lookup |
| Durability.DuplicateStaysIfSettled | internal/upload/service.go:96-99 | in particular a Duplicate whose row is settled at the lookup names a file that stays |
| Durability.DuplicateCanNameALostFile | internal/upload/service.go:96-99 | and a lookup that names a file whose object is gone already: between the two steps of an early delete |
| Dedup.TwinsCameFromOverlappingUploads | internal/upload/service.go:96-141 | two live rows with one checksum come from uploads each of which looked up before the other inserted |
| DedupWindows.WindowsAreTheSteps | internal/upload/service.go:96-141 | the windows compared are those of the run: a row's upload looked up at the step where its window begins and found nothing, then put this very record, and inserted it at the step where the window ends |
| Dedup.DuplicatesComeFromOverlapOnly | internal/upload/service.go:96-141 | exactly when: a run, and every way the uploads under way at any of its moments can finish, is free of two live rows with one checksum if and only if at none of its moments two uploads of one checksum, both still to be live, are between lookup and insert |
| Dedup.ApartUploadsNeverDuplicate | internal/upload/service.go:96-141 | if at no moment two uploads of one checksum are between lookup and insert, there is at most one live row per checksum; uploads of other files may overlap at will |
| Dedup.OverlapCanDuplicate | internal/upload/service.go:96-141 | from every reachable state with two such uploads, merely finishing both leaves two live rows |
| Dedup.SequentialUploadsNeverDuplicate | internal/upload/service.go:96-141 | in particular uploads that run one at a time leave no duplicates |
| Dedup.ConcurrentUploadsCanDuplicate | internal/upload/service.go:96-141 | and a run from the empty deployment that leaves two live rows with one checksum |
| Confluence.OverlappingSweepsActAsOne | internal/sweeper/sweeper.go:68-84 | sweeps without failures, interleaved in any way, end in the table and store one sweep of all they found would leave |
| Confluence.SchedulesAgree | internal/sweeper/sweeper.go:68-84 | two schedules that find the same rows end in the same state |
| Confluence.TwoSweepsCanDrawOneRow | internal/metadata/postgres_repository_files.go:64-105 | wherever a row has expired two sweeps can both draw it |
| SweepVisibility.SweeperIsInvisible | internal/metadata/postgres_repository_files.go:40-51 | in every run lookup and statistics answer as on the table that inserts and early deletes alone would have left |
| FileStats.LateQuerySeesTheSweep | internal/metadata/postgres_repository_files.go:40-51 | a query with an older clock reading sees a sweep if and only if the sweep took a row that reading still counts |
| FileStats.ActiveOrSweepable | internal/metadata/model.go:20-22 | active and sweepable rows partition the table by expiresAt > now and expiresAt <= now; IsExpired is now > expiresAt, so it differs at the instant of expiry |
| FileStats.ComputeStats | internal/metadata/postgres_repository_files.go:107-142 | counts the rows of the first table whose expiry is ahead and, per type before the slash, those of the second; totals and buckets each describe the table of their query, though SQL counts by full content type and the loop folds the groups; the buckets add up to the file count if and only if both tables have equally many active rows |
| FileStats.FoldOneGroup | internal/metadata/postgres_repository_files.go:130-137 | adding one group keeps the breakdown that of the rows folded so far |
| FileStats.SumBytes | internal/metadata/postgres_repository_files.go:110-116 | the sum does not depend on the order of rows |
| FileStats.TotalBytesOf | internal/metadata/postgres_repository_files.go:110-116 | the total of no rows is 0, and taking any row away takes its size away |
| Drain.OneTick | internal/sweeper/sweeper.go:53-84 | with at most f < 100 undeletable rows in the way a tick takes at least 100 - f of the g others, or all of them |
| Drain.BacklogDrains | internal/sweeper/sweeper.go:53-84 | after n ticks without new rows the backlog is empty or has lost n(100 - f) rows |
| Drain.BacklogIsEmptied | internal/sweeper/sweeper.go:53-84 | so it is empty after g / (100 - f) ticks, rounded up |
| Drain.StarvedBehindAFullBatch | internal/metadata/postgres_repository_files.go:71-79 | behind a hundred older undeletable rows a row is never drawn, in however many ticks |
| Drain.BacklogRecurrence | internal/sweeper/sweeper.go:56-84 | without failures the backlog is max(0, b - 100) plus the arrivals |
| Drain.RankBoundsLateness | internal/metadata/postgres_repository_files.go:75-77 | a row behind r others is gone by tick floor(r / 100) + 1, whatever expires later |
| Drain.LoneSweepIsOnePass | internal/sweeper/sweeper.go:68-84 | the loop, running alone, removes exactly the deletable rows of its batch and their objects |
| Drain.TurnsDrainTheBacklog | internal/sweeper/sweeper.go:53-84 | on runs of the protocol: n ticks of one sweeper, each drawing the hundred oldest, whose object deletes fail exactly for f < 100 expired rows, are a legal run and leave at most max(0, g - n(100 - f)) of the g other expired rows if no further row expires |
| Drain.TurnsEmptyTheBacklog | internal/sweeper/sweeper.go:53-84 | so after g / (100 - f) ticks, rounded up, only undeletable rows are left |
| Drain.TurnsStarveTheRest | internal/metadata/postgres_repository_files.go:71-79 | on runs of the protocol: behind a hundred older undeletable rows a row survives every number of ticks |
| Drain.TurnsReachEveryRank | internal/metadata/postgres_repository_files.go:75-77 | on runs of the protocol: a row behind r others is gone after floor(r / 100) + 1 ticks |
| Drain.TurnFollowsTheRecurrence | internal/sweeper/sweeper.go:56-84 | on runs of the protocol: after a tick the backlog is max(0, b - 100) plus what has expired since |
| UploadService.Service.Upload | internal/upload/service.go:52-147 | takes exactly the storage steps its result stands for with others acting in between; nothing is stored for a refused, short or unreadable body; size, name and type are each checked against the rules of that moment, and a type these refuse never gets past them; a duplicate has the checksum of the body, was live at the time the request read, and was the newest such row of the table at the lookup, and whenever the upload goes on there was none; every field of a new record is spelled out, its delete-token hash being that of the token returned; with sound storage, disk and source only rules, size and duplicates stand in the way of a new file |
| UploadService.Service.Receive | internal/upload/service.go:53-91 | refused exactly for size, name or type under the rules read for each, or for an unreadable or wrongly sized body; a type the rules refuse never gets past them; otherwise the spooled and the hashed bytes are the body; with a sound disk and source reading does not fail |
| UploadService.Service.Store | internal/upload/service.go:94-146 | the newest live row with the checksum of the body at the moment of the lookup is the duplicate, and there is one if and only if the upload stops there; otherwise put and insert of the record spelled out; without faults one of the two |
| UploadService.Service.Persist | internal/upload/service.go:116-146 | an insert that fails is followed by exactly one delete of the object just put |
| FileService.Service.DeleteBeforeTtl | internal/file/service.go:57-87 | decides by the row of the table at a moment of the call; the token is refused if and only if it is empty, the row stores none, or its hash is another; expiry is strict; object before row; the object step's result changes nothing; the URL is purged only after the row is gone; without faults only a missing row, the token and the expiry stand in the way |
| FileService.Service.GetInfo | internal/file/service.go:42-55 | reads the row of the table at one moment, takes no step, and reports strict expiry |
| Sweeper.Service.SweepOnce | internal/sweeper/sweeper.go:53-93 | takes the steps of the loop; counts exactly the rows whose two deletes succeeded; purges exactly the non-empty URLs of these, once each and in the order of the batch; without faults all rows drawn are deleted; left alone, takes the hundred oldest expired rows and removes those it could |
| Sweeper.Service.SweepBatch | internal/sweeper/sweeper.go:65-84 | one try per row of the batch in its order; a row whose object or row delete fails is kept and not purged; count and URLs are those of the rows deleted; left alone it removes rows and objects of exactly the deletes that took effect |
| Sweeper.LoopEffect | internal/sweeper/sweeper.go:68-84 | undisturbed, the loop removes exactly the rows both of whose deletes took effect |
| FilesTable.SelectLatestActive | internal/metadata/postgres_repository_files.go:40-51 | no row has the checksum and its expiry ahead, or one that does and is created no earlier than any other that does |
| FilesTable.SelectExpired | internal/metadata/postgres_repository_files.go:64-105 | rows expired at the cutoff and not locked, oldest first, each once; one is left out only by a full batch of rows no later than it |
| SharedStorage.Cluster.FindActiveByChecksum | internal/metadata/postgres_repository_files.go:40-51 | the newest row of the table at that moment with the checksum and its expiry ahead, or that there is none, as one step among those of others |
| SharedStorage.Cluster.Insert | internal/metadata/postgres_repository_files.go:14-38 | the insert as one step; an error does not tell whether it took effect |
| SharedStorage.Cluster.FindById | internal/metadata/postgres_repository_files.go:53-62 | the row at that moment, or that there is none |
| SharedStorage.Cluster.FindExpired | internal/metadata/postgres_repository_files.go:64-105 | the oldest expired rows of the table at that moment, minus those locked elsewhere |
| SharedStorage.Cluster.DeleteById | internal/metadata/postgres_repository_files.go:145-154 | the row is gone after a success; a row already gone is no error to the callers |
| SharedStorage.Cluster.SweepDeleteObject | internal/sweeper/sweeper.go:69-73 | on failure the sweep moves on and the row stays |
| SharedStorage.MineIsItsOwnSteps | internal/upload/service.go:52-147 | what an operation is said to have done is every event of the run that is its own, in order, and no other |
| Streaming.ReadFull | internal/upload/service.go:60-64 | the first 512 bytes, or all if there are fewer, under any chunking |
| Streaming.MultiReader.Read | internal/upload/service.go:72-72 | sniffed bytes then the rest, each byte once |
| Streaming.ChecksummingReader.Read | internal/upload/checksum.go:15-25 | the hash sees exactly the bytes handed on |
| Streaming.Copy | internal/upload/service.go:84-87 | on success spool file and hash have exactly the bytes of the source; with a sound disk and source it succeeds |
| ObjectKeys.ObjectKeyRoundTrip | internal/upload/service.go:149-152 | date, id and extension are recoverable from a key |
| ObjectKeys.KeyLayout | internal/upload/service.go:149-152 | up to the year 9999 the key is, digit by digit, yyyy/mm/dd/ then id and extension |
| ObjectKeys.DifferentIdsDifferentKeys | internal/upload/service.go:149-152 | different ids never share a key |
| ObjectKeys.KeyOfAcceptedNameIsAccepted | internal/upload/validator.go:64-79 | a key made from an accepted name is accepted by the same rules, whatever the entries, as long as each starts with a dot |
| FileNames.BlockingIsSegmentMembership | internal/upload/validator.go:64-79 | for an entry "." + w a name is blocked if and only if a segment after its first dot is w, ignoring case |
| FileNames.ExtAfterLastDot | internal/upload/validator.go:66-66 | the extension is the text from the last dot on, unless a slash follows it |
| Text.ContainsMeans | internal/upload/validator.go:73-73 | a text contains another if and only if it is that text with something before and after |
| FileNames.SegmentFound | internal/upload/validator.go:64-79 | extension test or substring search meets segment membership |
| FileNames.ExtCommutes | internal/upload/validator.go:65-66 | taking the extension and lower-casing commute |
| FileNames.CompoundEntryNeedsTrailingDot | internal/admin/service.go:274-279 | an entry with a second dot matches if and only if it stands in front of another dot |
| FileNames.EntryBlocksItsOwnExtensionIff | internal/admin/service.go:274-279 | an entry that starts with a dot blocks every name ending in it if and only if it has no further dot and no slash |
| FileNames.CompoundEntryMissesItsOwnExtension | internal/upload/validator.go:64-79 | for instance ".a.b" does not block "x.a.b" |
| Validation.AcceptedNames | internal/upload/validator.go:64-79 | with entries "." + w, w free of dots and slashes, a name is accepted if and only if no dot-separated segment after its first is such a w, ignoring case |
| Validation.Validator.ValidateExtension | internal/upload/validator.go:64-79 | the loop accepts a name if and only if no entry is its extension or stands in it in front of a dot, ignoring case |
| Validation.Validator.ValidateSize | internal/upload/validator.go:53-62 | positive and at most the maximum, if and only if |
| Validation.Validator.IsMimeTypeAllowed | internal/upload/validator.go:92-100 | if and only if the type is in the list, or begins with x + "/" for some x + "/*" in it |
| Validation.Validator.Update | internal/upload/validator.go:37-46 | the new size and lists as a whole, empty lists as nil |
| Validation.Validator.Snapshot | internal/upload/validator.go:48-51 | one whole set of rules |
| Validation.WildcardMeansTopLevelType | internal/upload/validator.go:102-111 | "major/*" accepts exactly the types whose part before the slash is major |
| Validation.PatternMeans | internal/upload/validator.go:102-111 | a pattern accepts itself and, if it is x + "/*", whatever begins with x + "/"; nothing else |
| Validation.TopLevelMeans | internal/metadata/repository.go:107-113 | the text before the first slash, or "other" if there is no slash or nothing before it |
| Validation.ValidateUploadSettings | internal/admin/service.go:261-286 | accepts if and only if the size is 1 to 10240 MB, some type is left and every extension left starts with a dot; what it accepts is normalised; which error it gives for a size |
| Validation.NormalizeStringList | internal/admin/service.go:288-297 | the trimmed entries that are not blank, in order |
| Validation.NormalizedEntries | internal/admin/service.go:288-297 | no entry is blank or untrimmed and none is lost |
| Validation.NormalizedInOrder | internal/admin/service.go:288-297 | entry by entry a blank one goes and any other stays in its place, trimmed |
| Validation.TrimTakesSpaceOnly | internal/admin/service.go:291-291 | trimming takes white space, nothing else, off both ends, and all of it |
| Validation.NormalizingTwice | internal/admin/service.go:288-297 | normalising again changes nothing |
| Configuration.SplitAndTrim | internal/config/config.go:223-233 | the entries between commas, normalised |
| Configuration.ListRoundTrip | internal/config/config.go:223-233 | every list of trimmed entries without commas can be written as one value and read back |
| Settings.ValidatorHoldsAWholeCommittedValue | internal/upload/settings_synchronizer.go:38-61 | at all times there is one committed row whose lists are the validator's and whose megabytes times 1024 * 1024 are its maximum |
| Settings.PollingConverges | internal/upload/settings_synchronizer.go:38-61 | after the last commit and callback, a poll begun later brings the validator to the row for good |
| Settings.StaysUpToDateIff | internal/upload/settings_synchronizer.go:38-61 | an up-to-date validator stays so in every run without a commit, if and only if the poll under way and the callbacks yet to run carry the rules of the row |
| Settings.StalePollRestoresTheOldValue | internal/upload/settings_synchronizer.go:38-61 | until then a poll that read before the commit undoes it |
| Settings.ReorderedCallbacksRestoreTheOldValue | internal/admin/handler.go:225-242 | so can callbacks in another order than their commits |
| Settings.PollSettlesUnlessAListIsEmpty | internal/upload/settings_synchronizer.go:44-58 | a second poll writes nothing if and only if neither list is an empty non-nil one |
| Settings.SettingsSynchronizer.SyncOnce | internal/upload/settings_synchronizer.go:38-61 | after a successful read the validator has the lists of the row and its megabytes times 1024 * 1024; it is written if and only if the comparison of these fails; without faults a row is read |
| Settings.UpdateUploadSettings | internal/admin/handler.go:211-245 | accepted input is committed, then the local validator has its megabytes in bytes and its normalised lists; never the validator without the commit; without faults accepted input is stored |
| Settings.SettingsStore.SeedUploadSettingsIfMissing | internal/metadata/postgres_repository_uploadsettings.go:33-52 | an existing row is never changed; without faults there is one afterwards |
| Settings.SettingsStore.UpdateUploadSettings | internal/metadata/postgres_repository_uploadsettings.go:54-77 | replaces the row, and fails if there is none |
| Sessions.TokenAcceptedIffIssuedAndFresh | internal/admin/service.go:105-141 | a token is accepted while it was issued less than 24 hours ago and not logged out, and only up to 24 hours, whatever verifications and purges happened |
| Sessions.VerificationIsSound | internal/admin/service.go:105-141 | interleaved with anything, a verification that succeeds found the token issued and not logged out when it looked it up, read a time within its 24 hours, and found its admin |
| Sessions.HousekeepingIsInvisible | internal/admin/janitor.go:22-36 | with or without purges and verifications every answer is the same except at exactly 24 hours |
| Sessions.PurgeShowsAtTheLastInstant | internal/metadata/postgres_repository_admin.go:140-146 | at that instant they differ |
| Sessions.VerifyingNeitherExtendsNorRevives | internal/metadata/postgres_repository_admin.go:121-130 | from any moment on a session keeps its expiry while it is there, stays gone once gone, and is refused past its 24 hours, however it is used and touched |
| Sessions.EndedIsEnded | internal/admin/service.go:143-152 | once a session's token is logged out or its admin removed, no later history has that token accepted |
| Sessions.RowsTellTheirLogin | internal/metadata/postgres_repository_admin.go:86-146 | after every single call a row still tells its login, and is missing only if logged out or past its time |
| Sessions.UndisturbedVerification | internal/admin/service.go:105-141 | the steps of a verification, uninterrupted, give the verdict and the table of the whole call |
| Sessions.Service.Login | internal/admin/service.go:60-103 | a session of 86400 seconds for the admin of that name, only if the password matches that admin's hash; refused only if it does not, without a change; when no call fails and the token is new, exactly that decides |
| Sessions.Service.VerifySession | internal/admin/service.go:105-141 | accepts only a token whose row is there, not past its expiry and of an existing admin, refuses only when one of these fails, and without faults decides; the row is touched, or deleted, and nothing else |
| Sessions.Service.Logout | internal/admin/service.go:143-152 | after a success nothing accepts the token, at no time and for no set of admins; no other session changes |
| Sessions.Service.PurgeExpired | internal/admin/janitor.go:22-36 | a session stays if and only if its expiry is ahead, and no verdict changes but at the very instant of expiry |
| ApiKeys.FirstRevocationIsFinal | internal/metadata/postgres_repository_apikeys.go:85-91 | a key is revoked as of its first revocation, whatever follows |
| ApiKeys.TokenWorksUntilRevoked | internal/admin/service.go:198-221 | a key's token answers to that key only, and is refused if and only if the key was revoked |
| ApiKeys.KeyRepository.FindByTokenHash | internal/metadata/postgres_repository_apikeys.go:34-49 | the key with the hash, or none if there is none |
| ApiKeys.KeyRepository.Create | internal/admin/service.go:159-181 | a new unrevoked key under the trimmed name; ids and hashes stay unique; without faults only an empty name or a used id or hash prevents it |
| ApiKeys.KeyRepository.Verify | internal/admin/service.go:198-221 | accepts only a token whose hash belongs to an unrevoked key, touching that key alone; refuses only if there is none; without faults decides |
| ApiKeys.KeyRepository.Revoke | internal/admin/service.go:191-196 | the key is refused from then on and keeps its first revocation time; a second call, or one for an unknown key, changes nothing; other keys stay |
| Nodes.NodeRepository.Heartbeat | internal/metadata/postgres_repository_nodestatus.go:12-27 | the row is online as of now, unmarked and not stale before now; the first start time stays; other nodes are untouched |
| Nodes.UpsertRecordsTheBeat | internal/metadata/postgres_repository_nodestatus.go:12-27 | the upsert yields the one table of which that is true |
| Nodes.Reporter.Run | internal/nodestatus/reporter.go:34-55 | other nodes are untouched; once a heartbeat took effect the row is online and unmarked, as of one of the times of the loop, with its first start time; without faults as of the last |
| Nodes.NodeRepository.MarkStaleOffline | internal/metadata/postgres_repository_nodestatus.go:29-54 | a row online with a last heartbeat no later than the cutoff becomes offline, marked now and otherwise as it was, every other row stays; exactly these are returned, each once; a lost answer may hide the effect |
| Nodes.Janitor.SweepOnce | internal/nodestatus/janitor.go:45-58 | flags exactly the nodes online without a heartbeat for staleAfter, or on a fault none, and reports exactly the nodes its update flagged |
| NodeLiveness.StepsAreTheCalls | internal/nodestatus/janitor.go:45-49 | in the timed model a heartbeat records the time its loop read and an update flags by the time its janitor read, as the calls do |
| NodeLiveness.NeverFlaggedIff | internal/nodestatus/reporter.go:34-55 | for every k, whatever restarts, losses and marks came before: a running node that loses at most k heartbeats in a row is never flagged by any interleaving once a heartbeat took effect, if and only if (k + 1) max(interval, delay) + delay < staleAfter |
| NodeLiveness.LiveNodeIsNeverFlagged | internal/nodestatus/janitor.go:45-49 | under that condition, from any state in which the node has started, its row is online and recent from the first heartbeat that takes effect on |
| NodeLiveness.BeatSettles | internal/metadata/postgres_repository_nodestatus.go:12-27 | a heartbeat that takes effect makes up for everything, whatever the row said before |
| NodeLiveness.ConfigCheckIsTheInstantCase | internal/config/config.go:171-179 | the startup check is that condition for heartbeats without delay and loss; it admits settings under which one lost heartbeat flags the node at no delay at all, namely staleAfter up to twice the interval |
| NodeLiveness.DefaultsBearOneLoss | internal/config/config.go:115-127 | with the defaults one lost heartbeat is borne if and only if heartbeats take less than 15 s, and two in a row never are |
| NodeLiveness.SilentNodeIsFlagged | internal/nodestatus/janitor.go:29-49 | a silent node is flagged at the latest one janitor interval and one update after its row became stale |
| NodeLiveness.MarksMatchStatus | internal/metadata/postgres_repository_nodestatus.go:12-54 | in every reachable state a row is offline if and only if it has a mark, at least staleAfter past its heartbeat |
| NodeLiveness.EachTransitionIsReportedOnce | internal/metadata/postgres_repository_nodestatus.go:29-54 | every transition to offline is returned by exactly one update |
| NodeLiveness.MarkStaysUntilHeartbeat | internal/metadata/postgres_repository_nodestatus.go:29-54 | a mark stays until the next heartbeat |
| Migrations.AppliedInOrderExactlyOnce | internal/metadata/postgres_repository.go:57-131 | with any number of concurrent, failing and crashing runners the files executed are a prefix of the sorted names, each once, exactly those are recorded, and a success means all |
| Migrations.RerunChangesNothing | internal/metadata/postgres_repository.go:92-128 | nothing is undone, and after a success no call changes anything |
| Migrations.OneAtATime | internal/metadata/postgres_repository.go:64-69 | at most one runner is past the lock |
| Migrations.UndisturbedCallSucceeds | internal/metadata/postgres_repository.go:57-131 | whatever failures led there, once the lock is free an undisturbed call applies the rest and succeeds |
| Migrations.Database.Migrate | internal/metadata/postgres_repository.go:57-131 | one call keeps the prefix, never shrinks it, and on success has applied and recorded exactly the files of the directory, in byte-wise order, spelled out; without faults it succeeds |
| Migrations.FilesOfListing | internal/metadata/postgres_repository.go:79-90 | exactly the files of the directory, each once; of two names the earlier is a proper prefix of the later or has the smaller character where they first differ |

## Left out

- HTTP handlers, routing, JSON, CORS, cookies and the body of responses; of the admin handler only
  the order of commit and callback is kept.
- The R2, Cloudflare and pgx clients; storage is a map, purging a log of requests that may fail.
- Cryptography and randomness beyond the assumptions above; the constant-time comparisons.
- Legal documents, the concurrency limiter, bootstrap, logging, metrics, reading the environment and
  the rest of the configuration checks; they would add only easy members.
- Sessions.Service.Login: does not model that an unknown user costs a password comparison too.
- UploadService.Service.Upload: a failure to rewind the spool file or to generate a token is, in the
  protocol, an operation that stops after its lookup.
- SharedStorage.Cluster: the environment of one operation is a list of steps fixed beforehand, of which
  those possible in their turn happen; the protocol modules quantify over all runs.
- Streaming.Copy: the spool file is the sequence of bytes written, without file descriptors.
- FileNames.ExtCommutes: the two functions are on characters; invalid UTF-8, letters whose lower case is
  longer or shorter, and the Kelvin sign family of foldings are left out.
- Settings.UpdateUploadSettings: sizes are unbounded integers; the ceiling of 10240 MB keeps the real
  64-bit product far from overflow.
- Times are integers on one clock; Postgres keeps microseconds of Go's nanoseconds, and the instances'
  clocks differ.
- The poll of the settings applies its comparison and its write at once; the source takes a snapshot, then
  writes.
- NodeLiveness.NeverFlaggedIff: a heartbeat that reported an error and takes effect later, or from a
  process that has stopped, is left out, as is scheduling delay of the reporter's loop beyond the
  duration of its calls.
- Migrations.AppliedInOrderExactlyOnce: the advisory lock counts re-entries in Postgres; here a
  connection that kept it and takes it again holds it once, which allows every behaviour of the
  counted one.
- The listing queries (`ListAPIKeys`, `ListNodeStatus`), which only sort and return rows.
