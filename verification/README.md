# NexaDrive server: verification model

A Dafny model of the parts of the NexaDrive server whose correctness depends on several pieces of state
agreeing with each other: the resumable upload protocol, the quota, the per-upload locks, desktop sync, the
tree algorithms, and four smaller cores (paths, byte ranges, the login throttle, the log ring).
`dafny verify dfyconfig.toml` checks the whole project.

## How the model is built

Code that changes state in place is a class or a method proved equal to a specification function or relation;
what the server promises is then proved about that specification, over every input and every run.

- **Uploads** (`UploadModel`, `UploadServer`, `UploadNoHoles`, `UploadCollisions`, `UploadCompletion`, `UploadExactness`,
  `UploadAnswers`, `UploadRecovery`, `UploadStartup`, `UploadSweep`, `UploadInterleaving`). A `World` is the job table and the files. Every handler takes the
  faults it meets as an argument: each database or file operation may succeed, fail without effect, or take
  effect and still be reported as failed, and a body may end anywhere with any part of it flushed. A run is any
  sequence of requests, cancels, sweep, cleanup and recovery steps, crashes that shorten or lose a staging file,
  and writes by other handlers. `Server` has one method per handler, and each ends in exactly the world that its
  function describes.
- **Names** (`Text`, `Paths`, `StagingNames`). The stored path text and the staging file name are modelled as
  strings, because cancel, expiry and recovery find the staging file by parsing that text again.
- **Quota** (`Quota`, `QuotaLedger`, `QuotaOverRuns`, `QuotaFailures`, `QuotaCache`, `Sums`). Usage and declared sizes are sums over
  finite maps. The check of an upload and the claim of its row are two steps with anything between them.
- **Locks** (`UploadLocks`). Requests move through cloning the map entry, waiting, holding, releasing and removing
  an idle entry; any two of them may interleave anywhere.
- **Trees** (`FileTree`, `StorageStats`, `StorageInsights`, `CopyTree`, `Transfers`, `TreeEdits`, `UsageOfEdits`). A tree maps paths to files,
  folders, links and special files; the children of a folder are visited in any order. One walk invariant serves
  the statistics, the copy and the sync scan.
- **Sync** (`SyncModel`, `SyncServer`, `SyncDelta`, `SyncEdits`, `SyncHashes`, `SyncLosses`, `SyncDevices`). A scan stamps many
  rows at many moments, so it is a relation between the state before and after; `SyncServer.Account` is proved to
  stay inside that relation, also when a scan stops half way. Device registration is a set of requests that advance by
  one database operation at a time.
- **Smaller cores** (`ByteRanges`, `LoginThrottle`, `LogLines`).

## What the proofs rest on

- Cancel and the expiry sweep take no per-upload lock; they are steps that never fall inside a chunk request of the
  same id. `UploadInterleaving.CancelInsideAChunkLeavesAHole` shows what happens when one does.
- The per-upload lock makes the chunk requests of one id atomic with respect to each other (`UploadLocks.LockSafety`). It says
  nothing about different ids: a quota check and the claim it is for are separate steps.
- Clients send parts of one source per account and upload id, to target names that are not the staging name of some upload
  (`StagingNames.Collides`: a name, the marker and an id in the spelling the server writes). The server does not check the
  name; for every name that collides `UploadCollisions.NoHolesNeedsNameCheck` gives a run that goes wrong.
- In the quota theorems the usage and the reservations of one check are read at one moment, and no two paths an account uploads
  to are stored as one text; requests without backslashes are the case a client can check
  (`QuotaOverRuns.QuotaHoldsWithoutBackslashes`). `QuotaOverRuns.QuotaBoundWithReading` says what an older usage reading costs,
  `QuotaFailures.TwinsShareAnAdmission` what two paths with one text do.
- Startup recovery and cleanup run before requests are served.
- SHA-256 is symbolic: a digest records the bytes it was computed from.
- Time is an abstract clock. For sync it moves on with every operation and is cut into days, because the stamps have two
  text formats: `CURRENT_TIMESTAMP` puts a space between date and time where a bound UTC value has a `T`. As text such a stamp is
  later than a cursor only from the next day on, a bound one as soon as its time is later (`SyncModel.Later`). That the columns
  differ in precision as well is not modelled.
- A rename is atomic. The fallback that removes the target after a failed rename is one of the ways a rename can fail.
- In sync, file names are valid text without backslashes; one scan or one copy sees a tree that nobody else changes, and scans
  run one at a time.

## What was found

- Two first chunks of different uploads can both pass the quota check before either has a row, and then use twice the limit
  (`QuotaFailures.OverlappingAdmissions`). The usage exceeds the limit by no more than the bytes staged at the check and what
  else was opened since (`QuotaOverRuns.QuotaBound`).
- Two targets that share a stored text share a row, and with lost commits one admission pays for both
  (`QuotaFailures.TwinsShareAnAdmission`); a file `a\b` and a file `b` in a folder `a` do
  (`QuotaFailures.BackslashTwinsShareAnAdmission`).
- A request that finds its row is not checked. An upload that was cancelled and comes back after another one was admitted in its
  place takes the account to twice the limit (`QuotaFailures.CancelledUploadReturnsUnchecked`).
- The cached usage misses a completion in the very second of its cutoff, and one whose commit is lost in whatever second.
  `QuotaCache.ChunkCoverIff` is the exact condition. Restores and copies write no job row, so it misses what they add
  (`QuotaCache.OtherWriteCoverIff`).
- A target name that is the staging name of another upload is accepted, and that upload overwrites the staging file of the other
  one (`UploadCollisions.NoHolesNeedsNameCheck`).
- A cleanup deletes every file it reaches whose name carries the staging marker and whose tail is not the id of a live session
  (`UploadStartup.CleanupDeletesExactly`), finished uploads of such names included (`UploadStartup.MarkedUploadIsDeleted`).
- A row agrees with the disk after a startup exactly when its removal worked or there were no stale bytes
  (`UploadStartup.StartupReconciles`): the server ignores a failing removal.
- A second startup leaves the job table alone exactly within the session lifetime and with a working session query, or when
  the files of all rows with confirmed bytes could not be removed (`UploadStartup.SecondStartup`).
- Recovery completes a job whenever any file sits at its target (`UploadCompletion.RecoveryTrustsAnyTarget`). When the target
  held no file before the job and nobody else writes it, completion is exact for every run if and only if the target's name holds
  no staging marker and its stored text does not read back as another path (`UploadExactness.ExactIff`).
- Stored path text does not parse back for names that are `.trash`, contain a backslash or NUL, or give the whole text
  whitespace at its ends; `Paths.StoredTextReparses` is the exact condition.
- A failed copy leaves part of the image of its source behind, and a transfer whose audit record fails is answered with an
  error although it happened (`Transfers.TransferEntry`).
- A delta brings a client to the full view exactly when no path the server forgot is gone, and nothing that vanished or changed
  was stamped on the day of the cursor (`SyncDelta.DeltaEqualsFull`). Scanning, trashing a synced file and scanning again on one
  day is enough to lose the deletion for good (`SyncLosses.SameDayDeletionIsMissed`).
- The server forgets a path when a folder is created over a deleted one, and when a deleted path is uploaded again and moved away
  before the next scan (`SyncLosses`). Because the path of a new folder is used as a LIKE pattern, creating it drops the
  tombstones of other names exactly when that text holds a `%` or `_` (`SyncEdits.CreationDropsNamedIff`), and those below a
  folder of another case always (`SyncEdits.OtherCaseIsDropped`).
- Two accounts that race for one free device id are both told they have it (`SyncDevices.RacingAccountsShareAnAnswer`); a
  request keeps its id exactly when nobody inserted it between its look-up and its insert (`SyncDevices.RaceIsWonIff`).
- The quota check of a single copied file counts its length even when the copy is named like a partial upload, which the
  statistics leave out (`Transfers.FileCopyGrowth`).
- A cancelled waiter leaves its lock entry behind exactly when it was the last request of its id
  (`UploadLocks.AbandonLeaksIff`).
- The login throttle is slightly tighter than ten failures per window suggest: at most nineteen failed checks, not
  twenty, fit into fifteen minutes, and nineteen do (`LoginThrottle`).
- Cutting log output into writes is harmless exactly while every complete line has at most 4000 bytes and the last
  unfinished one at most 4001 (`LogLines.IndependentIffFits`).

## Model

| member | source | states |
|---|---|---|
| `UploadNoHoles.NoHoles` | server/src/handlers/upload.rs:494-582 | In every run of chunks, dropped bodies, failed commits, whole-file uploads, cancels, sweeps, crashes and restarts by clients that send their own source to names that are no upload's staging name, a chunk that passes the offset check finds the staging file equal to the first `received` bytes of the source |
| `UploadCollisions.NoHolesNeedsNameCheck` | server/src/handlers/upload.rs:105-126 | For every name that is some upload's staging name it fails: an upload to that name makes the next chunk of the other be accepted on top of foreign bytes |
| `StagingNames.CollidesExactly` | server/src/handlers/upload.rs:105-126 | The check on a name holds if and only if it is the staging name of some target name that can exist and some id |
| `UploadCollisions.CollidesIff` | server/src/handlers/upload.rs:120-126 | A name collides if and only if a target of that name is the staging file of some upload to the same folder |
| `UploadCollisions.OtherNamesAreApart` | server/src/handlers/upload.rs:110-126 | A target whose name does not collide is the staging file of no upload to any target |
| `UploadCollisions.PlainIdDoesNotCollide` | server/src/handlers/upload.rs:110-126 | A marker and an id that parses are not enough: an id without hyphens makes a name that is nobody's |
| `UploadNoHoles.RunKeepsPrefixes` | server/src/handlers/upload.rs:257-604 | Over every such run, each staging file is a prefix of the source of its upload id |
| `UploadNoHoles.PrepareIsExact` | server/src/handlers/upload.rs:502-529 | When a chunk passes the offset check, staging length, row and request offset are one number |
| `UploadNoHoles.AcceptedChunkSeesPrefix` | server/src/handlers/upload.rs:494-529 | In any world with prefix staging files, the accepted offset is the length of a source prefix |
| `UploadCompletion.CompletionIsExact` | server/src/handlers/upload.rs:584-599 | For a target that held no file before and is written by nobody else, whose name holds no marker and whose stored text reads back as no other path: it is absent or the whole source, and a completed row means it is there with received, size and checksum of the source |
| `UploadExactness.ExactIff` | server/src/handlers/upload.rs:683-792 | Those two conditions on the target are exact: for every other target a request can name there is such a run after which the row is completed and the file absent |
| `UploadCompletion.ChunkFrame` | server/src/handlers/upload.rs:399-604 | A chunk request changes only its own row and its own two files, and never a row of another account |
| `UploadCompletion.FileFrame` | server/src/handlers/upload.rs:257-397 | The same for a whole-file upload |
| `UploadCompletion.RecoverFrame` | server/src/handlers/upload.rs:683-737 | Recovering one row changes that row and at most removes the staging file its stored text names |
| `UploadCompletion.CancelFrame` | server/src/handlers/upload.rs:608-643 | Cancelling changes at most the caller's own row and removes at most the staging file its stored text names |
| `UploadCompletion.RecoveryTrustsAnyTarget` | server/src/handlers/upload.rs:707-717 | Recovery completes an unfinished job if and only if any file sits at its target |
| `UploadRecovery.RecoveryAlwaysPossible` | server/src/handlers/upload.rs:478-529 | From any resumable job and any first guess within the source, a fault-free client that follows the returned offsets finishes within 1 + max(1, ceil(rest / chunk)) requests and the source arrives whole |
| `UploadRecovery.GuessPastEndIsRefused` | server/src/handlers/upload.rs:488-493 | A first guess past the end of the source is refused and changes nothing |
| `UploadRecovery.ReachableJobsAreResumable` | server/src/handlers/upload.rs:573-604 | Every unfinished job of every run of such clients, failed ones included, meets that condition |
| `UploadRecovery.ChunksIsCeiling` | server/src/handlers/upload.rs:553-582 | The number of chunk requests is the ceiling of rest over chunk size, one for an empty rest |
| `UploadStartup.StartupReconciles` | server/src/main.rs:72-73 | Whatever fails, startup removes only marker-named files; when it succeeds no row is left in staging, every receiving row can be located and has no file at its target, and a row agrees with the disk if and only if its removal worked or it had no stale bytes |
| `UploadStartup.RecoverSucceeds` | server/src/handlers/upload.rs:683-737 | Recovery succeeds if and only if no update of a fetched row fails |
| `UploadStartup.RecoverOnlyRemoves` | server/src/handlers/upload.rs:718-734 | Whatever fails, recovery removes nothing but staging files of the rows it fetched |
| `UploadStartup.SecondStartup` | server/src/handlers/upload.rs:743-792 | A second startup keeps the job table apart from timestamps if and only if it comes within the session lifetime with a working query, or every row with confirmed bytes has a staging file the cleanup could not remove |
| `UploadStartup.StartupTwice` | server/src/main.rs:72-73 | From any state and with any removal faults, two successful startups within the lifetime leave the same table as one |
| `UploadStartup.CleanupDeletesExactly` | server/src/handlers/upload.rs:743-792 | A file the cleanup reaches is deleted if and only if its name carries the marker and its tail is not the id of a live session |
| `UploadStartup.MarkedUploadIsDeleted` | server/src/handlers/upload.rs:780-789 | A finished upload of a file whose own name carries the marker does not survive the next cleanup |
| `UploadSweep.SweepExpires` | server/src/handlers/upload.rs:800-833 | A successful sweep fails exactly the unfinished rows past the lifetime, prunes exactly the old finished ones, leaves all others alone and removes only staging files of the rows it expired |
| `UploadInterleaving.CancelInsideAChunkLeavesAHole` | server/src/handlers/upload.rs:502-599 | A cancel between the length check and the re-creation leaves NUL bytes before the chunk and confirms the whole length: the row is receiving again, or completed with a file that starts with the hole |
| `UploadInterleaving.UndisturbedChunkExtends` | server/src/handlers/upload.rs:520-599 | Without that cancel the same request appends, in the staging file or, after the last chunk, at the target |
| `UploadAnswers.AcknowledgedChunkIsKept` | server/src/handlers/upload.rs:531-604 | Whatever fails, an acknowledged chunk arrived with as many bytes as were announced and has appended them to what was staged: in the staging file with a receiving row of that length, or at the target with a completed row of that size and the checksum of the whole |
| `UploadAnswers.OffsetsAgree` | server/src/handlers/upload.rs:502-529 | A chunk is let through if and only if it names the smaller of confirmed offset and staging length; any other is told that number |
| `UploadAnswers.FailedRenameKeepsStaging` | server/src/handlers/upload.rs:584-591 | A failed last rename keeps the staging file and the confirmed offset, and the row has failed |
| `UploadAnswers.ChunkRefusals` | server/src/handlers/upload.rs:399-446 | Each check of a chunk request has its error, in the order of the source, and a refused request changes nothing |
| `UploadAnswers.RowRefusals` | server/src/handlers/upload.rs:455-493 | A completed upload of the caller is answered as finished and nothing changes; another path or total, another account's id, a chunk that is too long and an exceeded quota are refused and nothing changes |
| `UploadAnswers.WholeFileDelivers` | server/src/handlers/upload.rs:296-386 | Without faults a located file whose id is free or an unfinished row of the caller is answered with its size and is at its target with its bytes, its staging file gone and its row completed |
| `UploadAnswers.AcknowledgedFileIsDelivered` | server/src/handlers/upload.rs:296-386 | Whatever fails, an acknowledged file that was not finished before is delivered in that sense |
| `UploadAnswers.RefusedFileLeavesNothing` | server/src/handlers/upload.rs:350-372 | A file the quota refuses, or whose rename fails, leaves no staging file when its removal works, and a failed row |
| `UploadAnswers.FileRefusals` | server/src/handlers/upload.rs:296-330 | A finished file is answered with its size, each check has its error, and a refused file changes nothing |
| `UploadAnswers.AcknowledgedRequestIsDelivered` | server/src/handlers/upload.rs:266-391 | Whatever fails, an acknowledged multipart request has delivered a file: to the folder of the last `path` field before it, under its own name and the last id before it, unless that id was finished before or sent twice |
| `UploadAnswers.AcknowledgedRequestTakesAll` | server/src/handlers/upload.rs:266-391 | With different, unfinished ids every file of an acknowledged request has a completed row with its size |
| `UploadAnswers.OneFileRequestDelivers` | server/src/handlers/upload.rs:266-391 | The usual request of folder, id and file delivers the file |
| `UploadAnswers.CancelAnswers` | server/src/handlers/upload.rs:608-643 | Each answer of a cancel belongs to exactly one case; stopped means a failed row and, with a working removal, no staging file, and all answers but an internal error leave everything else alone |
| `UploadServer.Server.UploadChunk` | server/src/handlers/upload.rs:399-604 | The handler, with its checks, reconciliation, frame loop and commit, ends in the world and answer of its specification |
| `UploadServer.Server.StreamBody` | server/src/handlers/upload.rs:531-552 | Writing a body frame by frame is one write of the whole body at the offset |
| `UploadServer.Server.UploadFile` | server/src/handlers/upload.rs:257-391 | The loop over the multipart fields ends in the world and answer of its specification |
| `UploadServer.Server.UploadFileField` | server/src/handlers/upload.rs:296-386 | One file field ends in the world and answer of its specification, whose deliveries and refusals `UploadAnswers` states |
| `UploadModel.MultipartIsRun` | server/src/handlers/upload.rs:266-391 | A multipart request is a run of single file uploads, so every statement about runs holds of it |
| `UploadServer.Server.CancelUpload` | server/src/handlers/upload.rs:608-643 | Cancel ends in the world and answer of its specification |
| `UploadServer.Server.RecoverUploadJobs` | server/src/handlers/upload.rs:683-737 | The loop over the rows its query selects, with failing removals and updates, ends in the specified world and result |
| `UploadServer.Server.CleanupStaleUploads` | server/src/handlers/upload.rs:743-792 | The cleanup loop, with files it does not reach or cannot remove, keeps exactly the files the specification keeps |
| `UploadServer.Server.SweepExpiredUploads` | server/src/handlers/upload.rs:800-833 | The sweep over exactly the rows its query selects ends in the specified world and count |
| `UploadServer.WritesCompose` | server/src/handlers/upload.rs:536-546 | Two writes one after the other are one write of both parts, past the end of the file too |
| `Paths.StoredTextReparses` | server/src/paths.rs:6-44 | Stored path text parses back to the same path if and only if its components and ends meet a condition a caller can check |
| `Paths.SafeRelativePath` | server/src/paths.rs:6-44 | The component loop computes the parse: rejects absolute paths, parent steps, NUL and trash, drops dots and empty parts |
| `Paths.ParseIff` | server/src/paths.rs:6-44 | A raw path is accepted if and only if, trimmed, it is empty or relative, without NUL, and no part is `..` or the trash; it stands for its parts without empty ones and dots |
| `Paths.TrashNameIsNotStable` | server/src/paths.rs:6-44 | A target named `.trash` is stored but cannot be parsed again |
| `StagingNames.StagingNameParsesBack` | server/src/handlers/upload.rs:105-126 | The id of a staging name reads back for every target name, even one that holds the marker |
| `StagingNames.StagingNameInjective` | server/src/handlers/upload.rs:120-126 | A staging name determines the target name and the id |
| `StagingNames.StagingPathInjective` | server/src/handlers/upload.rs:120-126 | Staging files of different transfers never share a path |
| `Text.TrimFixedPoint` | server/src/paths.rs:6-20 | Trimming changes a text if and only if one of its ends is whitespace |
| `Text.JoinOfSplit` | server/src/paths.rs:6-44 | Splitting at a separator and joining loses nothing |
| `Text.SplitOfJoin` | server/src/paths.rs:6-44 | Joining parts without the separator and splitting gives them back |
| `Quota.QuotaCheckIsExact` | server/src/handlers/upload.rs:154-250 | The check admits an upload if and only if usage, all active uploads and the newcomer fit the limit plus the bytes already staged |
| `Quota.QuotaCheckOfActive` | server/src/handlers/upload.rs:232-250 | For a file whose row is active already, the rest of its own reservation is left out of the check |
| `Quota.ReservationOf` | server/src/handlers/upload.rs:154-172 | An active row reserves the rest of its total, or of its size when no total is known |
| `QuotaOverRuns.UsageOverRuns` | server/src/handlers/upload.rs:154-250 | Over every run of chunk uploads to any set of targets no two of which share a stored text, with lost commits, failed renames, crashes and rows opened at any time, usage stays within what was committed at the start plus what the run opened |
| `QuotaOverRuns.QuotaBound` | server/src/handlers/upload.rs:457-475 | When the check passed, the usage at the end of every such run from there exceeds the limit by no more than the bytes staged at the check and what the run opened besides the checked upload |
| `QuotaOverRuns.QuotaBoundWithReading` | server/src/handlers/upload.rs:194-250 | The same for an inexact usage reading: what it missed is added |
| `QuotaOverRuns.QuotaHolds` | server/src/handlers/upload.rs:232-250 | When the run opens nothing else, usage stays within the limit plus the bytes staged at the check, lost commits included |
| `QuotaOverRuns.QuotaHoldsWithoutBackslashes` | server/src/handlers/upload.rs:428-436 | This is so for requests whose folder and name hold no backslash |
| `QuotaFailures.OverlappingAdmissions` | server/src/handlers/upload.rs:457-475 | Two uploads of the whole limit that both pass the check before either has a row use twice the limit |
| `QuotaFailures.TwinsShareAnAdmission` | server/src/handlers/upload.rs:455-487 | Two requests with one id to two targets with one stored text, both with a lost commit, open the limit once and use it twice |
| `QuotaFailures.BackslashTwinsShareAnAdmission` | server/src/handlers/upload.rs:428-436 | Two such requests: a file `a\b`, and a file `b` in a folder `a` |
| `QuotaFailures.CancelledUploadReturnsUnchecked` | server/src/handlers/upload.rs:445-477 | Admit, send a part, cancel, admit another upload of the whole limit, and let both finish: usage is twice the limit although every check passed, and the request that came back was not checked |
| `Quota.DeclarationsOverRuns` | server/src/handlers/upload.rs:232-250 | In runs without lost commits and without other openings, usage and everything still to come stay within the limit plus the bytes staged then |
| `Quota.CommitDecidesDeclarations` | server/src/handlers/upload.rs:584-599 | A completing rename keeps usage plus declarations within bounds if and only if its commit takes effect or the target was at least as large |
| `Paths.StoredTextInjective` | server/src/handlers/upload.rs:428-436 | Without backslashes the stored text determines the path |
| `Quota.ChunkCommits` | server/src/handlers/upload.rs:457-477 | A chunk that leaves no rename uncommitted raises usage plus declarations by at most the total of the row it opens or reopens |
| `QuotaCache.CachedReadingIsSafe` | server/src/handlers/upload.rs:174-230 | Over runs of chunk and whole-file uploads and deletions in which every completion of the account is committed in a later second than the cutoff and other handlers make no file larger, the cached reading is never below a fresh walk |
| `QuotaCache.ChunkCoverIff` | server/src/handlers/upload.rs:174-230 | A completing chunk keeps the cached reading safe if and only if its commit takes effect in a later second than the cutoff, or the file is no larger than the one it replaces |
| `QuotaCache.ReadingStaysExact` | server/src/handlers/upload.rs:174-230 | A completion at a free target in a later second is counted once: an exact reading stays exact |
| `QuotaCache.LostCommitIsMissed` | server/src/handlers/upload.rs:586-599 | A completion whose commit is lost raises the usage and not the reading, in whatever second |
| `QuotaCache.OtherWriteCoverIff` | server/src/handlers/upload.rs:174-230 | A file that another handler writes adds what it is larger to the usage and nothing to the reading, which stays safe if and only if it is no larger than what was counted there |
| `QuotaCache.SameSecondIsMissed` | server/src/handlers/upload.rs:174-192 | A completion in the second of the cutoff raises the usage and not the reading |
| `UploadLocks.LockSafety` | server/src/handlers/upload.rs:59-101 | Under every interleaving all waiters and holders of an id share the one mutex in the map, at most one holds it, and a waiter is never stuck behind a free mutex |
| `UploadLocks.DifferentIdsAreIndependent` | server/src/handlers/upload.rs:87-101 | Requests of different ids never share a mutex |
| `UploadLocks.NoEntryStaysBehind` | server/src/handlers/upload.rs:65-80 | With no cancelled waiter the map is empty once all requests are through |
| `UploadLocks.AbandonLeaksIff` | server/src/handlers/upload.rs:87-101 | A cancelled waiter leaves an entry behind if and only if it was the last request of its id |
| `UploadLocks.LockMap.CloneEntry` | server/src/handlers/upload.rs:88-94 | Taking a reference under the map lock is the specified step |
| `UploadLocks.LockMap.RemoveIdle` | server/src/handlers/upload.rs:70-79 | The idle check and removal under the map lock is the specified step |
| `FileTree.WalkEnds` | server/src/handlers/storage.rs:358-399 | A finished worklist walk, in whatever order, has reported exactly the real entries it should |
| `FileTree.WalkTakes` | server/src/handlers/sync.rs:163-226 | One directory entry is reported exactly when it is real and passes the filter, and never twice |
| `StorageStats.TreeStats` | server/src/handlers/storage.rs:354-399 | The walk adds up exactly the user files below a folder, the sum saturating at 64 bits |
| `StorageInsights.TreeInsights` | server/src/handlers/storage.rs:190-352 | Every breakdown counts exactly the user files of each class, and the list holds the five largest non-empty files, largest first |
| `StorageInsights.InsightsConserve` | server/src/handlers/storage.rs:246-352 | Type bytes, size-band bytes and used bytes are equal, likewise the counts, and both are what the plain statistics compute; the days add up to the files of the week |
| `StorageInsights.TypeFollowsExtension` | server/src/handlers/storage.rs:169-185 | The type of a file depends on the letters behind the last dot of its name and on nothing else, in either case |
| `StorageInsights.PlainNamesAreOther` | server/src/handlers/storage.rs:169-185 | Names without an extension, hidden ones too, are of the last type |
| `StorageInsights.BandsAreOrdered` | server/src/handlers/storage.rs:246-352 | Size bands are ordered and begin at 1, 10 and 100 MiB |
| `StorageInsights.DayBuckets` | server/src/handlers/storage.rs:246-352 | A file is in a day's bucket if and only if it was modified on that day |
| `StorageInsights.SortBySize` | server/src/handlers/storage.rs:336-352 | The final sort keeps what is listed and puts the largest first |
| `CopyTree.Disk.CopyFolder` | server/src/handlers/files.rs:322-354 | The copy loop, reading the tree it writes to, terminates with exactly the source's real entries at the destination, or breaks off at a fault with part of them |
| `CopyTree.GuardsKeepApart` | server/src/handlers/files.rs:222-241 | The checks before a transfer keep source and destination apart and the destination vacant |
| `Transfers.CopyIsExact` | server/src/handlers/files.rs:322-354 | Below the destination is the image of every real source entry and nothing else, folders as folders and files with the very bytes of the original, modified now; everything else, the source too, is unchanged |
| `Transfers.CopyStaysWellFormed` | server/src/handlers/files.rs:322-354 | After a copy every entry still sits in a folder |
| `Transfers.FolderCopyGrowsByFolderSize` | server/src/handlers/files.rs:242-249 | A folder copy raises the account's usage by exactly the size the quota was checked with |
| `Transfers.FileCopyGrowth` | server/src/handlers/files.rs:243-249 | A file copy raises it by the checked length if and only if the file is not named like a partial upload or is empty |
| `Transfers.CheckedSizeIsGrowth` | server/src/handlers/files.rs:242-249 | The size a copy is checked with is what it adds to the usage, of a file unless it is named like a partial upload |
| `Transfers.MoveKeepsUsage` | server/src/handlers/files.rs:250-252 | A move leaves the usage as it was |
| `Transfers.MoveBack` | server/src/handlers/files.rs:250-252 | Moving back undoes a move |
| `Transfers.TransferEntry` | server/src/handlers/files.rs:194-262 | A refused request changes nothing; one that is let through is exactly the copy or the move, or fails with nothing changed, a copy broken off, or only its audit record missing |
| `Transfers.InterruptedIsPart` | server/src/handlers/files.rs:336-352 | After a copy broke off everything outside the destination is unchanged and what is inside is (part of) the image of a real source entry |
| `Transfers.InterruptedStaysWellFormed` | server/src/handlers/files.rs:336-352 | A copy that broke off leaves every entry in a folder |
| `Transfers.InterruptedUsage` | server/src/handlers/files.rs:242-249 | A copy that broke off adds no more to the usage than the whole copy |
| `SyncServer.Account.TakeManifest` | server/src/handlers/sync.rs:75-152 | A manifest that succeeds is a completed scan and answers its rows and tombstones; one that fails leaves a partial scan |
| `SyncServer.Account.CollectEntries` | server/src/handlers/sync.rs:154-228 | The walk refreshes one row and drops one tombstone per visible path; a fault leaves a prefix of that work |
| `SyncServer.Account.TakeDelta` | server/src/handlers/sync.rs:26-73 | A delta is a completed scan cut down to the rows and tombstones whose stamps compare as later than the cursor, `CURRENT_TIMESTAMP` ones from the next day on |
| `SyncServer.Account.Trash` | server/src/handlers/files.rs:356-388 | Trashing takes the entry and everything in it out of the tree, then writes one tombstone; a database fault in between leaves the first without the second |
| `SyncServer.Account.Place` | server/src/handlers/upload.rs:584-599 | A finished upload puts its file into the tree, then drops one tombstone with its commit |
| `SyncServer.Account.Restore` | server/src/handlers/storage.rs:57-72 | A restore puts the entry back at its free place, then drops its tombstone |
| `SyncServer.Account.CreateFolder` | server/src/handlers/files.rs:390-409 | Creating a folder makes it and its parents at the parsed path, then drops the tombstones that equal the request text or match it as a LIKE pattern |
| `TreeEdits.WithFileLookup` | server/src/handlers/upload.rs:584-599 | A finished upload puts exactly its bytes at its path, makes the missing folders on the way and keeps every other entry |
| `TreeEdits.WithFoldersLookup` | server/src/handlers/files.rs:390-409 | Creating a folder adds exactly the missing folders on the way |
| `TreeEdits.WithoutLookup` | server/src/handlers/files.rs:356-388 | Trashing takes exactly what is at or below the path |
| `TreeEdits.WithEntryLookup` | server/src/handlers/storage.rs:57-72 | A restore puts the item at its path, makes the missing folders on the way and keeps every other entry |
| `TreeEdits.RestoreUndoesTrash` | server/src/handlers/storage.rs:57-72 | Restoring what was trashed gives the tree back |
| `UsageOfEdits.PlacingMovesUsage` | server/src/handlers/storage.rs:354-399 | A placed file moves the usage by the difference to the file it replaces, partial uploads counting nothing |
| `UsageOfEdits.TrashingFreesUsage` | server/src/handlers/storage.rs:354-399 | Trashing frees exactly the user files at or below the entry |
| `UsageOfEdits.FoldersAreFree` | server/src/handlers/storage.rs:354-399 | New folders leave the usage as it was |
| `SyncModel.SyncableIff` | server/src/handlers/sync.rs:163-172 | A path is synced if and only if no component is called like the trash and its first is not hidden |
| `SyncDelta.ScanBookkeeping` | server/src/handlers/sync.rs:121-144 | After a scan the fingerprints are the walked paths, the tombstones are (old and vanished) minus walked, and no path is both |
| `SyncDelta.DeltaEqualsFull` | server/src/handlers/sync.rs:26-73 | Over every run between two scans, patching the old view with the delta gives the new view if and only if every path the server forgot is still visible, every vanished path has a tombstone from a later day than the cursor, and every changed row a stamp that compares as later |
| `SyncDelta.DeltaInCarefulRuns` | server/src/handlers/sync.rs:107-152 | In runs in which no step loses a path the delta equals the full view if and only if nothing that vanished or changed was stamped on the day of the cursor |
| `SyncDelta.RestOfDayIsQuiet` | server/src/handlers/sync.rs:41-66 | That is so when nothing happens between the sync and midnight, whatever happens later |
| `SyncDelta.ClientKeepsUp` | server/src/handlers/sync.rs:26-73 | In such runs a client that only asks for deltas, none of them about the day of its cursor, has the server's full view after every sync |
| `SyncDelta.ScansAreCareful` | server/src/handlers/sync.rs:154-228 | Scans of other devices, whole or broken off, lose no path |
| `SyncEdits.UploadIsCareful` | server/src/handlers/upload.rs:584-599 | A finished upload loses no path |
| `SyncEdits.RestoreIsCareful` | server/src/handlers/storage.rs:57-72 | A restore loses no path |
| `SyncEdits.PlacedFileIsListed` | server/src/handlers/sync.rs:180-223 | After a finished upload the next scan lists the file with its size, its time and the hash of its bytes, unless a stored row has that size and time |
| `SyncEdits.CreatedFolderIsListed` | server/src/handlers/sync.rs:180-223 | After a folder was created the next scan lists it and the folders made on the way |
| `SyncEdits.CreationCarefulIff` | server/src/handlers/files.rs:390-406 | Creating a folder loses no path if and only if every fingerprint-less synced path whose tombstone goes is visible afterwards |
| `SyncEdits.CreationDropsBelow` | server/src/handlers/files.rs:401-404 | Among the dropped tombstones are those of everything at or below the folder |
| `SyncEdits.CreationDropsNamedIff` | server/src/handlers/files.rs:401-404 | The dropped tombstones are those of the text itself and of what lies below it up to ASCII case, whatever the tombstones are, if and only if the text holds neither `%` nor `_` |
| `SyncEdits.OtherCaseIsDropped` | server/src/handlers/files.rs:401-404 | Creating a folder drops what lies below one of another case, and not the tombstone of that folder itself |
| `Text.LikeLiteral` | server/src/handlers/files.rs:401-404 | In front of a pattern a text without wildcards matches itself up to ASCII case and nothing else |
| `SyncEdits.TrashCarefulIff` | server/src/handlers/files.rs:356-379 | Trashing an entry loses no path if and only if each visible path inside it has a fingerprint or a tombstone |
| `SyncDelta.RemovalCareful` | server/src/handlers/files.rs:250-252 | A change of the files with at most one tombstone written loses no path if and only if each visible path that goes has a fingerprint or a tombstone |
| `SyncLosses.FolderCreationLosesDeletions` | server/src/handlers/files.rs:401-406 | A concrete run in which creating a folder makes a delta miss a deletion |
| `SyncLosses.MovedUploadLosesDeletion` | server/src/handlers/files.rs:250-252 | A run, for any tree and any synced path: trash it, scan, upload it again, move it away, scan; every tree is what the handlers make of the one before, and the delta misses the deletion |
| `SyncLosses.SameDayDeletionIsMissed` | server/src/handlers/sync.rs:41-66 | For any tree and synced path: scan, trash, scan on one day; every step is careful, and the deletion is in the delta of no cursor from then on |
| `SyncLosses.SameDayTombstoneStaysOut` | server/src/handlers/sync.rs:55-66 | A tombstone from the day of a cursor or earlier is missing from that cursor's delta and from that of every later cursor |
| `SyncHashes.ManifestHashesAreFresh` | server/src/handlers/sync.rs:204-223 | If size and time determine content, over every run each manifest entry is what hashing the file now would give |
| `SyncHashes.SameStampIsMissed` | server/src/handlers/sync.rs:205-214 | With equal size and time the reported hash is right if and only if the content did not change |
| `SyncDevices.OthersRowsAreSafe` | server/src/handlers/sync.rs:279-347 | No operation of a request, rename or removal changes a row of another account |
| `SyncDevices.RowsSurviveOthers` | server/src/handlers/sync.rs:367-423 | Over every run of other accounts' operations an account's row stays exactly as it was |
| `SyncDevices.OwnerIsFixed` | server/src/handlers/sync.rs:311-331 | A row never changes hands |
| `SyncDevices.OwnerDecides` | server/src/handlers/sync.rs:367-423 | A rename or removal by the owner does what it says to that row alone, by anybody else nothing |
| `SyncDevices.AnsweredRowIsCurrent` | server/src/handlers/sync.rs:311-331 | An answered row of the caller carries the name of the request and its time; a platform it does not tell stays |
| `SyncDevices.OverlappingRequestsConverge` | server/src/handlers/sync.rs:333-346 | However the operations interleave, every successful request of the one account that uses a free id answers that id, which is a row of that account |
| `SyncDevices.OneMachineOneRow` | server/src/handlers/sync.rs:257-347 | In every run in which only one account asks for a free id, with renames, failing operations, other deletions and unrelated requests: each request for it that succeeds answers it, it is a row of that account, and every other new row was added by a request that does not ask for it |
| `SyncDevices.OnlyOneRow` | server/src/handlers/sync.rs:257-347 | When all requests ask for that id there is at most the one new row |
| `SyncDevices.SmoothRequestsSucceed` | server/src/handlers/sync.rs:333-346 | A request for it whose own operations work is answered with it |
| `SyncDevices.RaceIsWonIff` | server/src/handlers/sync.rs:286-346 | A request that found its id free is answered it, and the id is its own row if and only if no other account inserted it between the look-up and the insert |
| `SyncDevices.RacingAccountsShareAnAnswer` | server/src/handlers/sync.rs:335-342 | Two accounts racing for a free id are both told they have it |
| `SyncDevices.DeviceStore.ResolveDevice` | server/src/handlers/sync.rs:279-347 | An undisturbed request answers a row of the caller, reuses the one it names or the newest with its name and platform if it can, adds at most one and leaves all others alone |
| `ByteRanges.AcceptedRangeIsInside` | server/src/paths.rs:189-229 | Every accepted range has start <= end < size |
| `ByteRanges.FirstLastRoundTrip` | server/src/paths.rs:215-228 | Printing and parsing "bytes=a-b" gives the bytes from a to min(b, size-1), or an error when there are none |
| `ByteRanges.OpenEndRoundTrip` | server/src/paths.rs:217-228 | "bytes=a-" gives everything from a on |
| `ByteRanges.SuffixRoundTrip` | server/src/paths.rs:203-214 | "bytes=-n" gives the last min(n, size) bytes |
| `ByteRanges.RefusedHeaders` | server/src/paths.rs:193-216 | Another unit, more than one range and a set without a dash are refused |
| `ByteRanges.BlanksAreIgnored` | server/src/paths.rs:193-228 | Blanks around a range and around its numbers change nothing |
| `ByteRanges.RangeStream.Drain` | server/src/handlers/download.rs:140-166 | The chunks, each of at most 256 KiB, add up to exactly the slice; a file that got shorter gives a prefix and one error |
| `ByteRanges.FileResponse` | server/src/handlers/download.rs:91-136 | A range is answered with exactly its bytes and their number as Content-Length, a refused one with the size, none with the whole file |
| `LoginThrottle.NineteenPerInterval` | server/src/auth.rs:33-78 | In every sequential run, of any twenty failed checks without a success between them the last comes more than fifteen minutes after the first |
| `LoginThrottle.TenPerWindow` | server/src/auth.rs:33-69 | At most ten failures per window, and windows without a success between them start more than fifteen minutes apart |
| `LoginThrottle.NineteenAtOnce` | server/src/auth.rs:33-69 | Nineteen failures within one nanosecond do happen |
| `LoginThrottle.TenAfterSuccess` | server/src/auth.rs:71-78 | None of the ten logins after a success is refused, whatever came before it |
| `LoginThrottle.RefusedIff` | server/src/auth.rs:50-69 | In every sequential run a login is refused if and only if ten passwords were wrong since the last success in one window that is still open |
| `LoginThrottle.Throttle.LogIn` | server/src/auth.rs:223-244 | A login is refused exactly at ten failures in an open window and then changes nothing; a correct one clears its key, a wrong one counts in the open window or opens a new one; no other key changes |
| `LogLines.SplittingIsIndependent` | server/src/logbuf.rs:126-158 | Any cut of a text whose lines fit into writes pushes the same lines |
| `LogLines.IndependentIffFits` | server/src/logbuf.rs:135-147 | The cut does not matter if and only if every complete line has at most 4000 bytes and the last one at most 4001 |
| `LogLines.CompleteLinesAreCut` | server/src/logbuf.rs:126-132 | The complete lines of a text are its parts before the newlines, each without the line ends behind it and without anything else |
| `LogLines.LinesJoinBack` | server/src/logbuf.rs:126-158 | Joined with newlines, the lines of a text without carriage returns are the text, up to its final newline |
| `LogLines.NothingIsLost` | server/src/logbuf.rs:126-158 | So are the lines pushed for any cut of a fitting text into writes |
| `LogLines.LogWriter.Put` | server/src/logbuf.rs:126-147 | One write pushes the complete lines and holds back or spills the rest as specified |
| `LogLines.LogBuffer.Push` | server/src/logbuf.rs:30-41 | The ring is always the last 500 non-blank redacted lines ever pushed |
| `LogLines.LogBuffer.Recent` | server/src/logbuf.rs:43-50 | The newest kept lines first, as many as asked for but at least one, at most 500 and no more than there are |

## Left out

- SQL text, HTTP routing, JSON, headers other than the range ones, audit rows and notifications: tables are maps and requests are calls.
- SHA-256, password hashing, UUID generation and token randomness: symbolic, or arbitrary values.
- Real file system calls, fsync durability, the creation of parent folders, and case-insensitive file systems.
- The width of the counters in the job table: sizes there are unbounded, the totals of the statistics and of the quota saturate at 64 bits.
- Dangling symbolic links at a destination, and links among the folders above a path: a path is looked up in the tree as it is written.
- The modification times of folders after a copy or a move inside them.
- Two scans of one account at the same time, and file changes in the middle of a scan.
- The order of manifest entries and of tombstones, and the device name and platform normalisation: entries are a map from path to entry.
- File names with backslashes in sync, which the server reports under the path with slashes.
- The table of trashed items and `permanently_delete_trash`: a restore is given the entry it puts back.
- Share-link throttling (the same code with another map), the redaction rules of log lines (an arbitrary function), and log text beyond ASCII.
- Overlapping logins of one key, which may register more failures than sequential ones.
- UploadNoHoles.NoHoles: clients send parts of one source per account and id, to names that do not collide; two files sent under one id are not distinguished by the server.
- QuotaCache.CachedReadingIsSafe: a walk that runs while files change is not modelled; restores, copies and other handlers that make files larger without a job row are left out; `QuotaCache.OtherWriteCoverIff` says what the reading then misses.
- QuotaOverRuns.QuotaBound: whole-file uploads, copies, restores and moves of the same account are left out; whole-file uploads are checked only after their body is staged.
- Quota.DeclarationsOverRuns: for runs that lose no commit and open nothing else; `Quota.CommitDecidesDeclarations` is the exact condition of one step.
- LoginThrottle.NineteenPerInterval: for requests of one key that follow each other.
- Restic backups, previews and thumbnails, metrics, the console, sharing and the clients.
