# Lapis Archive file service: a verified model

The service hands out share links with access codes for uploaded files, deletes files after a
retention window, throttles guesses and migrates its own schema. This project models the parts of
it that are stateful, concurrent or exposed to faults, and proves what they keep.

`dafny verify dfyconfig.toml` checks everything.

## What is modelled

| module | subject |
|---|---|
| `RateLimiter` | the in-memory sliding-window limiter, against a limiter that never forgets |
| `UnlockLimits` | the two limiters in front of the code check, with unlock requests interleaving |
| `Codes`, `Shares` | random strings, code normalisation, hex text, minting, rotating and verifying a share |
| `Store` | the shares and uploads tables, one function per SQL statement |
| `ShareProtocol`, `ShareGuarantees`, `ShareCodes`, `ShareRaces` | create, rotate, unlock, revoke, purge and retention as an interleaved protocol, what every run keeps, how many codes a file hands out, and runs in which a promise fails |
| `Retention`, `RetentionMachine`, `RetentionLedger`, `RetentionRuns`, `Drain`, `Backlog` | the retention sweep and the share purge with a fault chosen for every call: as the job computes it, as single effects with crashes and other activity in between, the audit trail, the link between the two, draining a backlog, and what holds one up |
| `Migration`, `Dedupe` | several instances running the embedded migrations, and the dedupe of migration 0004 |
| `Filenames` | sanitising names, building, splitting and validating storage keys |
| `Multipart` | the part plan, the paginated part listing and the size cap at completion |

Conventions. Time is an integer that never goes backwards and is passed in. SHA-256 is a function
parameter; where a result needs it, it is assumed injective in the code for a given 16-byte salt.
Random bytes are an input stream. Slugs and storage keys are assumed never to repeat. An upload's
creation time may lie before the moment its row is inserted. A failed SQL
statement has no effect; a failed object delete may or may not have removed the object; a failed
commit may or may not have been applied. There is one retention worker.

In the machines (`UnlockLimits`, `ShareProtocol`, `RetentionMachine`, `Migration`) an action is one
call that the source makes atomically, and theorems range over all sequences of enabled actions.
Some state is history that no action reads to decide anything: the codes handed out for a row
(`lives`), the keys ever recorded (`births`) and the keys whose object the worker removed
(`removed`). What else happened to a key in a run is a function of the run (`EventsOf`).

## Where a promise needs a condition

- **Three codes per file.** The repository's README promises at most three. In every run the codes
  answered to clients for a file are accounted for, to the last one, by the stored count of its
  current row, the counts of its rows that were removed, and the amounts by which rotations written
  from an outdated snapshot fell short of the stored count (`CodesPerFile`). So they equal the
  current row's count exactly when the file has had one row and no rotation of it was written from
  an outdated snapshot, and a file with at most one row, removed or not, and no such rotation stays
  within three. There are two ways past the limit: overlapping rotations hand out any number of
  codes while the stored count rises by one (`OverlappingRotationsAreUnbounded`), and revoking a
  link and sharing the file again does so without any rotation (`RevokingIsUnbounded`). The stored
  count itself is always between 1 and 3, and only the code written last verifies.
- **A share never outlives its file.** The cap is a lookup of the upload's row and a later insert or
  update. `capToRetention` leaves the expiry alone when the lookup fails and also when the sweep has
  dropped the row in the meantime. Row by row, for every file ever recorded, the promise holds
  exactly if the row's last write found the upload (and its window is positive) or asked for an
  expiry within the deadline anyway (`RetentionNeverCutsShareShort`); when the sweep is about to
  delete a file, such shares of it are all expired (`SweptSharesAreExpired`). Any other row is cut
  short unless something removes or rewrites it first (`LateRowIsCutShort`): after a failed lookup
  (`MissedCapIsCutShort`), or because the file was swept between the check for its object and the
  insert (`SweptFileIsShared`).
- **Exactly one audit entry per purge.** In every run, whatever fails and wherever the worker
  crashes, a key has at most one entry, and none while its row is there. Once the row is gone it has
  its entry if and only if the row was not dropped in silence because its counter still said never
  tried, and the entry was not lost to a failed write or to a crash just before it
  (`PurgesAreRecordedExactlyOnce`; `CrashLosesPurge` is a run that drops a purge in silence). If no
  first mark and no entry is lost, the books are complete (`BooksAreComplete`). Conversely, an entry
  means a removed object unless a HEAD or orphan-row delete of the key failed, and a raised counter
  does unless one of those or an object delete failed (`RecordedPurgesAreReal`,
  `FailedHeadForgesPurge`).
- **A tracked object keeps its row until it is deleted.** This holds for a key if and only if its
  object was not put after its row had gone and its row was not deleted while the object was back in
  the bucket (`TrackedObjectsKeepTheirRow`); so it holds whenever the object arrives within its
  window (`TimelyObjectsKeepTheirRow`). Completing a multipart upload has no deadline, and an object
  that comes too late can be left without a row (`LateObjectIsUntracked`).
- **Every expired upload is deleted in the end.** A listing holds the 200 oldest expired rows. A row is
  sure to be in it if and only if fewer than 200 other expired rows are no younger
  (`SureToBeListed`), and 200 rows that keep failing keep all younger ones waiting
  (`StuckRowsBlockYounger`). Without faults a backlog drains (`EverythingDrains`).
- **An issued key is a valid key.** The sanitiser counts characters, the validation counts bytes:
  `IssuedKeyIsValidIff` gives the exact condition and `IssuedKeyMayBeRefused` names that fail.
- **Sanitising is idempotent** exactly unless a cut without a kept extension ends in white space
  (`SanitizeIsIdempotentIff`).
- **The limiter's table is bounded** only for a limit of at least 1, as every limiter of the service
  has; otherwise it keeps every key ever seen (`ZeroLimitKeepsEveryKey`).

The repository's README says the purge worker deletes the object and the row of an expired share;
the code deletes only the row and leaves the object to retention, and the model follows the code.

## Model

| member | source | states |
|---|---|---|
| RateLimiter.Limiter.Allow | internal/handlers/ratelimit.go:42-70 | the table and decision of one call, computed in the backing array that earlier calls left behind, are those of `AllowStep`, which the lemmas below relate to the full history |
| RateLimiter.Limiter.EvictStale | internal/handlers/ratelimit.go:72-78 | deleting while walking the map in any order leaves exactly the keys whose newest call is in the window |
| RateLimiter.CompactInPlace | internal/handlers/ratelimit.go:49-54 | compaction through a slice sharing the backing array it reads equals filtering the old contents |
| RateLimiter.BoundedRefinesReference | internal/handlers/ratelimit.go:42-78 | over every run the bounded limiter takes the decisions of the unbounded one: accept exactly when the key has fewer than `limit` accepted calls in the window and fewer than maxKeys other keys have any; the table stays within maxKeys |
| RateLimiter.WindowBound | internal/handlers/ratelimit.go:42-70 | every half-open window of every run holds at most `limit` accepted calls of each key, although eviction discards history |
| RateLimiter.ZeroLimitKeepsEveryKey | internal/handlers/ratelimit.go:56-59 | with a limit of 0 or less, whatever the maximum, every call is refused and the table holds exactly the keys ever called |
| UnlockLimits.GuessesAreBounded | internal/handlers/share.go:298-319 | over all interleavings of unlock requests, in any minute at most 30 code checks per slug and 10 per (slug, address) |
| UnlockLimits.JoinedIsInjective | internal/handlers/share.go:303 | for slugs of equal length the joined key determines slug and address |
| UnlockLimits.JoinedCollidesOnFreeLengths | internal/handlers/share.go:296-303 | without the fixed slug length any three texts give two different pairs that share a budget |
| UnlockLimits.IpRefusesExactly | internal/handlers/share.go:303 | in every run a request is refused by the per-IP limiter exactly when ten of the same slug and address were admitted in the last minute or ten thousand other pairs had one admitted |
| UnlockLimits.SlugRefusesExactly | internal/handlers/share.go:298-303 | in every run a request is turned away before that exactly when its slug is malformed, thirty of the slug passed in the last minute, or ten thousand other slugs had one pass |
| UnlockLimits.AdmissionsBelongToPair | internal/handlers/share.go:303 | the number of admissions counted under a validated pair's joined key is the number of that pair's own admissions |
| Codes.RandomString | internal/domain/share.go:182-197 | the result is the first `length` accepted bytes of the stream mapped into the alphabet, no byte beyond the last needed one is read, and it fails exactly when the stream has too few |
| Codes.SelectionIsUniform | internal/domain/share.go:184-193 | for every alphabet size 1 to 256 each index is hit by exactly (256 - 256 mod n) / n accepted byte values |
| Codes.GeneratedSlugIsValid | internal/domain/share.go:16-22 | every generated slug passes the validation |
| Codes.ValidateSlug | internal/domain/share.go:148-159 | accepts exactly ten ASCII letters and digits |
| Codes.NormalizeCode | internal/domain/share.go:161-173 | the loop computes `Normalize` |
| Codes.NormalizeMeansVariant | internal/domain/share.go:161-173 | an input normalises to a code exactly when it is that code with spaces and dashes inserted and letters put in lower case |
| Codes.NormalizeIsIdempotent | internal/domain/share.go:161-173 | normalising twice is normalising once |
| Codes.HexRoundTrip | internal/domain/share.go:129-135 | decoding the encoded salt gives the salt back |
| Shares.NewShare | internal/domain/share.go:55-92 | fails exactly when the random source does; otherwise a valid slug, count 1, and a row carrying the returned code under the drawn salt |
| Shares.Share.Rotate | internal/domain/share.go:96-120 | refuses exactly at three codes, changes nothing unless it succeeds, and then carries the new code only |
| Shares.Share.Check | internal/domain/share.go:124-141 | the verdict is that of `Verify` on the object's fields |
| Shares.VerifyAcceptsExactlyVariants | internal/domain/share.go:124-141 | until expiry a row accepts exactly the spellings of its code, through the hex round trip of the salt |
| Shares.RotationRetiresOldCode | internal/domain/share.go:94-120 | after a rotation the new code is accepted and a different old one refused |
| Shares.EffectiveTtl | internal/domain/share.go:56-58 | whatever was asked for, a share lives more than zero and at most seven days, and what cannot be granted becomes 72 hours |
| Shares.TtlFromHours | internal/handlers/share.go:191 | the requested hours become a wrapping signed 64-bit number of nanoseconds |
| Store.ShareStore.Create | internal/store/store.go:29-42 | inserts exactly when neither slug nor storage key is taken, otherwise changes nothing |
| Store.ShareStore.RotateCode | internal/store/store.go:46-61 | rewrites code, expiry, count and recipient of the row with that slug; slug, key, owner and creation time of every row stay |
| Store.ShareStore.GetByStorageKey | internal/store/store.go:99-109 | finds the row of a key, or nothing exactly when there is none |
| Store.ShareStore.DeleteByStorageKey | internal/store/store.go:152-169 | removes all rows of a key and returns exactly their slugs, each once |
| Store.ShareStore.Delete | internal/store/store.go:171-180 | removes a row only for its owner, never an ownerless one |
| ShareProtocol.StepKeepsInv | internal/handlers/share.go:138-277 | every action of every request and worker keeps the protocol's invariant, whatever stale snapshots are in flight |
| ShareProtocol.RequestStaysOk | internal/handlers/share.go:221-262 | a request's stale snapshot stays in order while other rows are written and slugs drawn |
| ShareGuarantees.TableStaysSound | internal/handlers/share.go:138-277 | every run: one row per slug and per storage key, count in 1..3, salt and digest from one minting drawn in the run |
| ShareGuarantees.StepRespectsRows | internal/store/store.go:44-61 | one step: a surviving row keeps slug, key, owner and file, its code changes only by a rotation written to this very row for its owner, and a row once gone stays gone |
| ShareGuarantees.IdentityOverRun | internal/store/store.go:44-61 | whole runs: a row is the same file of the same owner for all its life |
| ShareGuarantees.OnlyOwnerChangesCode | internal/handlers/share.go:224-234 | whole runs: unless its owner writes a rotation of this very row, the code, count and expiry of an owned row do not change |
| ShareGuarantees.OverlapOverRun | internal/handlers/share.go:221-267 | a row is marked overlapped exactly when some write of the run used an outdated snapshot |
| ShareGuarantees.HandedEqualsCountIffNoOverlap | internal/handlers/share.go:249-276 | a live row: the codes handed out in its life equal its stored count exactly in runs without overlapping rotations of the row, and are then at most 3 |
| ShareCodes.CodesPerFile | internal/handlers/share.go:138-277 | a file, over all its rows, live or removed: codes answered to clients are the sum over the lives of its rows, and equal the current count plus the counts of removed rows plus what stale rotations fell short by; they equal the current count if and only if there was one row and no stale rotation; without stale rotations at most 3 per row |
| ShareGuarantees.OnlyLatestCodeVerifies | internal/domain/share.go:94-141 | in every reachable state a row accepts the last written code in all its spellings and no other code ever handed out for it |
| ShareGuarantees.UnlockAcceptsLatestAtLoad | internal/handlers/share.go:314-319 | an unlock accepts exactly the spellings of the code that was the row's latest when it was loaded, until the expiry it had then, whatever happens to the row before the check |
| ShareGuarantees.RetentionNeverCutsShareShort | internal/handlers/share.go:114-136 | every run, every row of a file ever recorded, its upload row still there or not: once the window has passed all codes are expired, if and only if the row's last write found the upload with a positive window or asked for an expiry within the deadline |
| ShareGuarantees.LateRowIsCutShort | internal/handlers/share.go:114-136 | a live row of which that is not true: as time passes the file's window is over, and retention selects it if its row is there, while the share accepts its latest code |
| ShareGuarantees.SweptSharesAreExpired | internal/worker/retention.go:111-124 | every run: when the sweep is about to delete a file, every share of it that was kept in time is already expired |
| ShareGuarantees.CapIsExact | internal/handlers/share.go:126-135 | an expiry is safe from the strict cutoff if and only if it is within the deadline, and the cap keeps the latest safe one |
| ShareRaces.OverlappingRotationsAreUnbounded | internal/handlers/share.go:249-276 | from any live ownerless row below the limit, some run hands out any given list of codes while the count rises by one |
| ShareRaces.RevokingIsUnbounded | internal/handlers/share.go:156-208 | in any reachable state the owner of a file's link, by revoking and sharing again, gets any given list of codes in some run without a rotation |
| ShareRaces.CrowdForms | internal/handlers/share.go:221-260 | any number of requests can read the row before one writes |
| ShareRaces.SweptFileIsShared | internal/handlers/share.go:168-199 | from any state with an unshared file that the sweep selects, some run ends with a share of it that verifies while the file and its row are gone |
| ShareRaces.MissedCapIsCutShort | internal/handlers/share.go:118-125 | one missed lookup: retention selects a file whose share still verifies |
| Retention.PurgeExpiredUploads.ProcessUpload | internal/worker/retention.go:70-150 | one upload under any faults: the new world is that of `Process`, and which counter rises |
| Retention.PurgeExpiredUploads.Run | internal/worker/retention.go:62-157 | a failed listing is the only error and changes nothing; otherwise the world is that of the sweep over the listing, and the totals reported are its failures and deletions |
| Retention.FailedAreTheRowsLeft | internal/worker/retention.go:69-151 | the failures a sweep reports are exactly as many as the listed rows it leaves; all other listed rows are gone and no other row is |
| Retention.PurgeExpiredUploads.MarkDeleteFailed | internal/store/uploads.go:91-99 | raises the retry counter of the row, if there is one, or nothing |
| Store.UploadStore.Create | internal/store/uploads.go:22-32 | a key recorded before stays as it is, counter included; a new one starts at 0 |
| Retention.PurgeExpiredShares.Run | internal/worker/purge.go:48-80 | a failed listing is the only error and changes nothing; otherwise the table and trail are those of `Purge` over the listing |
| RetentionMachine.StepKeepsSafe | internal/worker/retention.go:62-157 | every single effect, crash and outside activity keeps the safety invariant |
| RetentionMachine.TrackedObjectsKeepTheirRow | internal/worker/retention.go:71-137 | key by key, after every effect of every run: a tracked object in the bucket still has its row, if and only if the object was not put after its row had gone and its row was not deleted while the object was back |
| RetentionMachine.TimelyObjectsKeepTheirRow | internal/worker/retention.go:101-137 | so it always has, if the key's objects arrive within the window |
| RetentionMachine.WindowIsRespected | internal/store/uploads.go:34-42 | no worker step touches an object or row within its window or an untracked object |
| RetentionLedger.PurgesAreRecordedExactlyOnce | internal/worker/retention.go:70-151 | every run, every key, any faults and crashes: at most one entry, none while the row is there, whose counter is raised exactly if a mark succeeded; without a row and not in hand, exactly one entry if and only if the row was not dropped with its counter at 0 and the entry was not lost |
| RetentionLedger.RecordedPurgesAreReal | internal/worker/retention.go:74-122 | every run: an entry means that the object was removed or a HEAD or orphan-row delete of the key failed, a raised counter that it was removed or one of those or an object delete failed |
| RetentionLedger.BooksAreComplete | internal/worker/retention.go:84-98 | if no first mark and no entry of the key is lost: its row is marked exactly if its object was removed or one of those calls failed, and without a row it has exactly one entry if its object was removed or a HEAD or orphan-row delete failed, else none |
| RetentionRuns.JobIsMachineRun | internal/worker/retention.go:62-157 | the job's sweep is a run of the single-effect machine, lossless when marks and audits succeed |
| RetentionRuns.FailedHeadForgesPurge | internal/worker/retention.go:87-109 | a failed HEAD makes a later sweep record a purge that never happened |
| RetentionRuns.LateObjectIsUntracked | internal/worker/retention.go:71-101 | an object put after its window can be left in the bucket without a row |
| RetentionRuns.CrashLosesPurge | internal/worker/retention.go:84-100 | a crash after the object's deletion loses its record |
| Drain.ListExpired | internal/store/uploads.go:34-61 | computes a listing: expired rows only, distinct, oldest first, min(200, n) of them, none younger than one left out |
| Drain.ListExpiredShares | internal/store/store.go:135-142 | computes the same for expired shares, soonest expired first, for every table with its keys in order |
| Drain.ListingIsAccepted | internal/worker/retention.go:64 | such a listing is one the machine accepts |
| Drain.SweepClearsOldestBatch | internal/worker/retention.go:62-157 | a fault-free sweep clears exactly min(200, n) expired rows, none younger than a row it leaves |
| Drain.BacklogShrinks | internal/worker/retention.go:62-157 | after k fault-free sweeps max(0, n - 200k) expired rows are left; rows within their window stay |
| Drain.PurgeRemovesAndRecords | internal/worker/purge.go:54-74 | a purge, whatever fails, removes exactly the rows whose delete succeeded and records, in order, exactly those of them whose entry could be written |
| Drain.SharesShrink | internal/worker/purge.go:48-80 | after k fault-free purges max(0, m - 200k) expired shares are left, and unexpired ones stay |
| Drain.JobsShrink | internal/worker/purge.go:12-16 | however overdue sweeps and purges interleave, each at its own time, k sweeps leave exactly max(0, n - 200k) upload rows and k purges at most max(0, m - 200k) shares |
| Backlog.SureToBeListed | internal/store/uploads.go:34-41 | an expired row is in every listing, however ties are broken, if and only if fewer than 200 other expired rows are no younger |
| Backlog.StuckRowsBlockYounger | internal/worker/retention.go:62-157 | while 200 expired rows fail whenever they are reached, no sweep, whatever else fails, removes a row younger than all of them |
| Drain.EverythingDrains | internal/worker/retention.go:62-157 | once every deadline has passed, fault-free jobs in any order and at any later times that include ceil(n/200) sweeps and ceil(m/200) purges leave no row, no share and no tracked object |
| Drain.ProtocolIsOverdue | internal/handlers/share.go:114-136 | the starting condition on shares is what the share protocol provides in its reachable states |
| Migration.MigrationFiles | internal/migrate/migrate.go:100-114 | exactly the plain files ending in .sql, each once, in ascending order |
| Migration.StepKeepsInv | internal/migrate/migrate.go:21-98 | every statement of every instance, failing or not, keeps the invariant |
| Migration.AppliedIsSortedPrefix | internal/migrate/migrate.go:28-97 | always a duplicate-free prefix of the sorted names, with exactly those files' statements in effect, although both are changed one statement at a time inside transactions; a successful run leaves all applied |
| Migration.OneInstanceAtATime | internal/migrate/migrate.go:17-31 | no two instances are past the advisory lock at once |
| Migration.Database.Run | internal/migrate/migrate.go:63-92 | the loop of one instance extends the prefix in order and stops at the first reported failure; success means nothing is missing |
| Dedupe.DedupeTable | db/migrations/0004_share_rotation.sql:7-12 | row by row, the delete computes `Dedupe` |
| Dedupe.DedupeKeepsYoungestPerKey | db/migrations/0004_share_rotation.sql:7-12 | exactly one row is left for each key that had any, the maximum by (created_at, id) |
| Dedupe.UniqueIndexBuilds | db/migrations/0004_share_rotation.sql:14 | afterwards no two rows share a key |
| Dedupe.DedupeIsIdempotent | db/migrations/0004_share_rotation.sql:7-12 | repeating the step changes nothing |
| Filenames.SanitizedShape | internal/handlers/file.go:23-48 | 1 to 180 characters, no control character, no separator except the lone slash left by a name of separators only |
| Filenames.ShorteningKeepsExtension | internal/handlers/file.go:35-42 | a cut name has 180 characters and keeps a final extension of up to 20 |
| Filenames.SanitizeIsIdempotentIff | internal/handlers/file.go:23-48 | idempotent exactly unless a cut without kept extension ends in white space |
| Filenames.DirectoriesAreDropped | internal/handlers/file.go:24-25 | only the last path component matters, with either separator |
| Filenames.SplitInvertsBuild | internal/storagekey/storagekey.go:7-19 | splitting an issued key returns the id and the name |
| Filenames.CheckKey | internal/handlers/multipart.go:263-275 | the scan accepts exactly nonempty keys of at most 220 bytes without control characters and separators |
| Filenames.IssuedKeyIsValidIff | internal/handlers/multipart.go:108-110 | an issued key is accepted back exactly when its name fits in 183 bytes and was not made of separators only |
| Filenames.AsciiKeysAreValid | internal/handlers/multipart.go:261-275 | always for ASCII names |
| Filenames.IssuedKeyMayBeRefused | internal/handlers/multipart.go:264 | names whose issued key is refused |
| Multipart.PlanCoversFile | internal/handlers/multipart.go:17-22 | the announced number of fixed-size parts and a nonempty last one add up to the file |
| Multipart.PlannedIff | internal/handlers/multipart.go:97-106 | planned exactly when within the cap and ten thousand parts |
| Multipart.ListParts | internal/storage/s3.go:173-199 | ends for all page sizes, and a listing that succeeds is exactly the held parts in order |
| Multipart.TotalOf | internal/handlers/multipart.go:202-205 | the loop computes the total held |
| Multipart.SortParts | internal/storage/s3.go:203 | the slice ends up a permutation in ascending order |
| Multipart.CompletedObjectFitsCap | internal/handlers/multipart.go:195-217 | whatever the client sends, an assembled object is no larger than the held total and the cap, and every part named was held |
| Multipart.AcceptableSortIsUnique | internal/handlers/multipart.go:214-215 | an acceptable list has one sort, however ties are broken |
| Multipart.OrderDoesNotMatter | internal/handlers/multipart.go:214-217 | two shufflings of a list complete alike as soon as one is accepted |

## Left out

- Request binding, JSON shapes, status codes, CORS and body limits: plumbing without hard properties.
- JWT and JWKS handling: the caller is an optional non-empty user id.
- Presigned URLs and the S3 SDK: the bucket is a map with success, not-found and error outcomes.
- SHA-256, constant-time comparison and randomness quality: a hash parameter and byte streams.
- Configuration, logging, health checks, process start and shutdown; the two sides of the share cap share one pair of windows, as the server wires them.
- The periodic runner's goroutines, tickers and panic recovery: sweeps come in arbitrary sequences.
- Several retention workers at once, and a rotation landing between the share purge's listing and its delete-by-slug in the drain results: the drain theorems are about sweeps with nothing else going on.
- The share handlers as imperative code: create, rotate and revoke are actions of a machine, because their interleaving is the point; the tables and the share object they use are also given as classes.
- RateLimiter.Limiter.Allow: a key's backing array, spare cells included, is kept as a value and loaded into an array for the in-place compaction; that no two keys share an array is part of the model, not proved of the heap.
- Retention.PurgeExpiredUploads.MarkDeleteFailed: does not store the error text, which nothing reads.
- Multipart.SortParts: the library's sort is modelled by an insertion sort; the completion results hold for every sort, stable or not.
- Migration.MigrationFiles: names are inserted in order while the directory is read instead of being sorted afterwards; ascending distinct names leave only one possible result.
- Multipart.TotalOf: the total is an unbounded integer; the bucket's limits of 10000 parts of 5 GiB keep the real sum within 64 bits.
- Strings that are not valid UTF-8: JSON decoding replaces them before they reach this code.
- Email fields beyond the recipient written by a rotation, and metadata and history reads: no state changes.
