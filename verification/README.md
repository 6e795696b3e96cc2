# Verified models of the scholarship assistant's backend

Dafny models of the pieces of the backend whose correctness depends on a loop, a protocol or an
invariant over whole runs, with the properties the code is there to provide proved for all inputs,
all runs and all interleavings of transactions.

`dafny verify dfyconfig.toml` checks everything.

## What is modelled

| piece | files | code |
|---|---|---|
| PNG screenshot validator | `PngChunks`, `PngImage`, `PngValidator`, `PngStandard` | `scripts/release_provenance.py` |
| Refresh-token rotation | `RefreshTokens`, `RefreshProtocol`, `RefreshSafety`, `RefreshRace`, `AuthService` | `app/modules/auth/service.py`, `repository.py`, `dependencies.py` |
| Audit hash chain | `AuditChain` | `app/modules/auth/models.py`, migration 0035 |
| Sliding-window rate limiter | `SlidingWindow`, `RateLimitStores`, `RateLimitRuns`, `RateLimitBackend`, `RateLimitKeys`, `RateLimitMiddleware` | `app/core/rate_limit.py` |
| Application workspace | `Applications`, `ApplicationHistory`, `ApplicationRuns`, `ApplicationEffects`, `ApplicationService` | `app/modules/applications/command_service.py` |
| Reminders and their worker | `Reminders`, `ReminderRuns`, `ReminderEffects`, `ReminderService` | `command_service.py`, `app/cli/dispatch_reminders.py` |
| Tenant row policies and sessions | `TenantPolicies`, `TenantWrites`, `TenantVisibility`, `TenantSession` | migration 0036, `app/db/session.py` |
| Acquisition planner | `AcquisitionPlanner`, `AcquisitionNeeds` | `app/modules/catalogue_ingestion/acquisition_planner.py` |
| Assistant citations | `AssistantCitations` | `app/modules/assistant/service.py` |

Where the code changes state step by step the model does too: the services, stores, tables and
sessions are classes, and the validator's, verifier's, limiter's and dispatcher's loops are loops. Each
such method is proved against a function on the old state; the theorems about runs are about those
functions. What the functions themselves do is stated once more without them: by predicates over the columns
(`RefreshSeen`, `UpdateSeen`, `DispatchSeen`, `Appended`, ...) that the methods ensure, and by closed forms of
every table of constants.

**PNG validator.** `IsValidPng` says, without offsets or loops, what a file of RFC 2083 is as far as this
validator looks: the signature, then the encoding of a chunk list with one IHDR first and one empty IEND
last, whose header bytes describe an image by the rules of section 4.1.1 and whose IDAT bytes inflate to exactly
the scanlines of its pixels, flat or in the Adam7 pattern of section 2.6. None of the validator's tables or loops
occurs in it. `ValidatePng` follows the code branch by branch and accepts exactly those files, and every objection
is described in terms of the bytes. CRC-32 and inflate are parameters.

**Refresh tokens.** A refresh is two transactions, a read and a commit, and any number of requests may be in
flight between the two while every other operation runs. The invariant says that each family is a chain in
issue order whose only live token, if any, is its tail. Reuse containment is permanent and ended sessions
stay ended, access and refresh tokens alike and stale requests included; a request that loses its claim to a concurrent winner ends in containment.

**Audit chain.** The hash is a parameter, assumed injective where that matters; NULL metadata and `{}` are one
payload. The verifier's answer is the first row that fails, flushes keep the table verifying whatever the
clock does, and a change that keeps the last hash does not verify.

**Rate limiter.** One abstract counter, refined by the deque and by the Redis script with key expiry, outages
and lost replies. The middleware is proved over whichever of the two stores its settings choose, and its runs
inherit the counter's bound: requests let through for one account, token or user stay within that key's limit in
every window, from whatever addresses they come.

**Applications.** An update commits at any time after it read. The history of row replacements is kept beside the
tables, and what is legal in it is legal for every interleaving.

**Reminders.** Every service call is one atomic step; the worker is two transactions working from a
health row it loaded at the start.

**Tenants.** The thirty policies as data, visibility as the recursion PostgreSQL evaluates and, for each table, spelled
out down to owner columns; writes under USING and WITH CHECK with the foreign keys' cascades; and sessions with
transaction-local settings and savepoints.

## Assumptions

- Each committed transaction is atomic. Two transactions that overlap under READ COMMITTED and act on rows read
  before the other committed are outside the model, except where a read step is split off: `refresh`,
  application `update`, and the reminder worker.
- Random identifiers are fresh. In the tenant model this is `FreshIds`; elsewhere it is a precondition on the
  identifier passed in.
- CRC-32, inflate, SHA-256, password hashing and screening, case folding and whitespace cleaning are parameters.
- Rate limits of one key do not change during a run. The bounds over forwarded requests hold for runs (`orderly`) on
  one clock that does not step back, in which Redis, if it is the store, drops keys only after their deadline and
  members are unique;
  a script run whose reply is lost counts as the charge it made.

## Where the code does less than its documentation suggests

Each of these is a theorem with the exact condition under which the property does hold.

- In-memory `retry_after` cuts off fractions of a second: the advertised wait suffices exactly when the remaining
  time was at most a second or a whole number of seconds (`MemoryRetryIsShort`, `MemoryRetryOverRun`; a denial whose
  wait is too short is `MemoryRetryFallsShort`).
- A purge that falls between a lost claim and the loser's reread, with a cutoff that reaches the winner's commit, removes
  the marker the reread looks for, and the winner's token stays live (`PurgeCanHideTheRace`). A purge leaves the marker
  exactly when neither the token nor its replacement is due, and when replacements outlive what they replaced
  only the token counts (`PurgeKeepsMarkerIff`); over a run the reread finds the marker exactly when no such purge and
  no closure of the owner's account came in between (`MarkerStandsIff`, `RereadContainsIffMarkerKept`). With a
  retention of days it takes a request suspended for days.
- With requests in flight a late family revocation can put an older `revoked_at` on a newer token, after which a purge
  can erase the reuse marker of a surviving row (`PurgeCanEraseMarkersUnderInterleaving`). No purge does exactly when
  every replacement outlives what it replaced (`MarkersSafeIffLinksOutlive`), as it does when calls run one at a time.
- Deleting the newest audit rows is noticed only with the last hash at hand (`DeletionUnnoticedIffNewest`).
- An application created from a legacy row that was past submission without a date never gets one
  (`SubmissionIsStamped`, `UnstampedOrigins`).
- Overlapping reminder workers deliver each reminder once but can lose counts of `processed_count`
  (`CounterExactIffNoOverlap`, `OverlapLosesACount`).
- A tenant first bound inside a savepoint is lost to the rest of the transaction when the savepoint is rolled
  back; the transaction then sees nothing (`ContextExactIffNotNested`, `NestedBindingIsLost`).
- The plan depends on row order if a cell hangs on another candidate's node, which no constraint forbids
  (`CanonicalIffKeysDecide`, `UnalignedPlanDepends`).
- Opportunities described in the same words share the first one's citation: a listing whose degree claim an earlier
  listing makes too has its fact cite no record of its own (`FactCitesOwnRecord`, `TwinsShareACitation`).
- The PNG check accepts files that RFC 2083 does not allow: with a chunk of 2^31 bytes, with IDAT chunks that are not
  consecutive, with a critical chunk of unknown type, and with indexed colour but no palette (`LongChunkAccepted`,
  `SplitIdatAccepted`, `UnknownCriticalAccepted`, `MissingPaletteAccepted`, each around any stream that the
  decompressor in use inflates to the one scanline of a one-pixel image). An accepted file keeps these four rules
  exactly when its chunks pass one further test each (`AcceptedIsStrictIff`).

## Model

| member | source | states |
|---|---|---|
| `PngChunks.BigEndianRoundTrip` | scripts/release_provenance.py:121-127 | every 32-bit number survives being written as four big-endian bytes and read back |
| `PngChunks.BigEndianMeans` | scripts/release_provenance.py:121-127 | a 32-bit field is read with the most significant byte first (RFC 2083 section 2.1) |
| `PngChunks.HeaderMeaning` | scripts/release_provenance.py:136-162 | for every 13-byte payload: the header is accepted, and read as a given width, height, bits a pixel and interlacing, if and only if RFC 2083 section 4.1.1 and the size limits say so, with depths and samples derived from the bits of the colour type |
| `PngChunks.NamesAreStandard` | scripts/release_provenance.py:110-170 | the signature is the eight bytes of section 3.1 and the chunk types spell IHDR, IDAT and IEND |
| `PngChunks.FaultMeaning` | scripts/release_provenance.py:118-168 | which objection is raised at a chunk, if and only if what is wrong with its bytes: length, checksum, place, size or values of a header, content or place of an end |
| `PngChunks.ReadChunkDecodes` | scripts/release_provenance.py:118-130 | one iteration decodes chunk `c` at an offset if and only if the encoding of `c`, length, type, data and CRC, stands there |
| `PngChunks.ScanReads` | scripts/release_provenance.py:118-169 | on every byte string the loop ends; it has decoded a run of admissible chunks that re-encode to exactly the bytes passed, and a failure is the fault of the first chunk that is not one |
| `PngChunks.EncodingScans` | scripts/release_provenance.py:118-169 | every admissible chunk list, once written, is scanned back to the same kinds, IDAT bytes and header |
| `PngChunks.WellFormedFollows` | scripts/release_provenance.py:131-171 | the IHDR, IEND and IDAT rules the loop and its final test apply one chunk at a time amount to the list being well-formed: one IHDR first, one empty IEND last, at least one IDAT |
| `PngChunks.AcceptedFileReencodes` | scripts/release_provenance.py:108-171 | the chunks parsed from an accepted file re-serialize to exactly the bytes after the signature |
| `PngChunks.EncodedFileParses` | scripts/release_provenance.py:108-171 | every well-formed list, once serialized, is parsed back, IDAT bytes joined in order |
| `PngChunks.EncodingUnique` | scripts/release_provenance.py:118-130 | a byte string is the encoding of at most one chunk list |
| `PngImage.EveryPixelInExactlyOnePass` | scripts/release_provenance.py:185-193 | the seven (start, step) pairs put every pixel in exactly one pass, for every coordinate (RFC 2083 section 2.6) |
| `PngImage.PassesFollowPattern` | scripts/release_provenance.py:185-193 | the pass of a pixel is the one the 8 by 8 pattern of section 2.6 gives it |
| `PngImage.PassLengthCounts` | scripts/release_provenance.py:194-197 | a pass width or height is the number of columns or rows of the image on its grid |
| `PngImage.PassKeptWhenItHasPixels` | scripts/release_provenance.py:198-199 | a pass is kept exactly when some pixel travels in it |
| `PngImage.PassesCoverImage` | scripts/release_provenance.py:181-199 | for either interlace method the areas of the passes add up to width times height |
| `PngImage.RowBytesTight` | scripts/release_provenance.py:203 | a row takes the least number of whole bytes that hold its pixels |
| `PngImage.ComputePasses` | scripts/release_provenance.py:181-199 | the pass loop builds exactly the non-empty passes, in order |
| `PngImage.CheckScanlines` | scripts/release_provenance.py:201-209 | the cursor loop accepts exactly when every scanline begins with a filter byte of 0 to 4 and the length is the sum of the scanlines; otherwise the first failing test is reported |
| `PngImage.CheckedMeansHolds` | scripts/release_provenance.py:180-209 | bytes pass the check if and only if they are the scanlines of the image laid end to end: for each pass a line for each row with a pixel in it, of a filter type and just enough bytes for the columns of the pass |
| `PngValidator.AcceptedIffValid` | scripts/release_provenance.py:108-209 | the sequence of checks accepts a byte string if and only if it encodes an image, by a definition that shares no table and no loop with it |
| `PngValidator.ChunkErrorIsFirstFault` | scripts/release_provenance.py:118-169 | a rejected file was good up to the chunk whose fault is reported |
| `PngValidator.ValidatePng` | scripts/release_provenance.py:108-209 | the validator accepts exactly the files that encode an image and reports the first error in the order of the code |
| `PngStandard.TestDecidesRules` | scripts/release_provenance.py:118-171 | one test per chunk, which the loop does not make, decides four rules of RFC 2083: section 3.2 on lengths, 3.3 on critical types, 4.1.2 on the palette, 4.1.3 on consecutive IDAT chunks |
| `PngStandard.AcceptedIsStrictIff` | scripts/release_provenance.py:108-209 | an accepted file keeps the four rules if and only if the chunks it was read as pass that test |
| `PngStandard.LongChunkAccepted` | scripts/release_provenance.py:121-124 | for any decompressor and any stream it inflates to the scanline of one pixel: the file with that stream in its IDAT chunk and a text chunk of 2^31 bytes is accepted, and keeps the three other rules |
| `PngStandard.SplitIdatAccepted` | scripts/release_provenance.py:163-164 | for any decompressor and any stream it inflates to the scanline of one pixel: however it is cut in two, the file with a text chunk between the two IDAT chunks is accepted, and breaks no other rule unless a part is itself too long |
| `PngStandard.UnknownCriticalAccepted` | scripts/release_provenance.py:163-168 | for any decompressor and any stream it inflates to the scanline of one pixel: the file with a critical chunk of unknown type beside it is accepted, and breaks no other rule unless the stream is too long |
| `PngStandard.MissingPaletteAccepted` | scripts/release_provenance.py:139-158 | for any decompressor and any stream it inflates to the scanline of one pixel: the file of indexed colour without a palette is accepted, and breaks no other rule unless the stream is too long |
| `RefreshTokens.NextInjective` | app/modules/auth/service.py:158-161 | no token is the replacement of two |
| `RefreshTokens.FamilyIsChain` | app/modules/auth/service.py:122-170 | a family is a chain: at most one live token, its tail; one replacement and one predecessor each; links stay in family and user and go forward, so there is no cycle |
| `RefreshTokens.RotatingKeepsTokensOk` | app/modules/auth/service.py:158-161 | claim, insert and link extend the chain by one |
| `RefreshTokens.RetiringKeepsTokensOk` | app/modules/auth/repository.py:70-92 | revoking and deleting any tokens keeps every family a chain |
| `RefreshProtocol.CommitIsGood` | app/modules/auth/service.py:128-170 | a refresh committing on a stale reading keeps the chains, the versions and every dead family dead |
| `RefreshProtocol.StepKeepsOk` | app/modules/auth/service.py:107-184 | every operation keeps the tables and all requests in flight consistent |
| `RefreshProtocol.RunKeepsOk` | app/modules/auth/service.py:107-228 | the invariant holds along every interleaved run from empty tables |
| `RefreshProtocol.RunIsGood` | app/modules/auth/service.py:107-228 | between any two points of a run histories grow, versions do not shrink and dead families stay dead |
| `RefreshSafety.RunFamiliesAreChains` | app/modules/auth/service.py:122-170 | in every reachable state every family is a chain with at most one live token |
| `RefreshSafety.ReplacedTokenIsContained` | app/modules/auth/service.py:128-133 | presenting a replaced token always leads to containment |
| `RefreshSafety.LostClaimRereads` | app/modules/auth/service.py:146-157 | losing the claim writes nothing and leads to the re-read |
| `RefreshSafety.ContainLeavesDead` | app/modules/auth/repository.py:70-79 | containment leaves no live token in the family |
| `RefreshSafety.ContainmentIsPermanent` | app/modules/auth/service.py:128-157 | after detected reuse, a reread that finds the marker, or logout, no later step, stale refreshes included, ever makes a live token in that family |
| `RefreshSafety.EndingRaisesVersion` | app/modules/auth/service.py:172-184 | logout, reuse, reset and invalidation raise the user's version past every access token issued |
| `RefreshSafety.EndedSessionsStayEnded` | app/modules/auth/dependencies.py:26-34 | all access tokens issued to the user before such an event are rejected in every later state |
| `RefreshSafety.HonouredExactly` | app/modules/auth/dependencies.py:26-34 | an access token is honoured if and only if its user is there, active, and still has the role and version it names |
| `RefreshSafety.SignOutRevokesAll` | app/modules/auth/service.py:179-184 | after invalidation, an accepted password reset or closure the user has no unrevoked refresh token |
| `RefreshSafety.SignedOutStaysSignedOut` | app/modules/auth/service.py:179-228 | over a run: every family issued to that user before such an event is dead at every later point, refreshes in flight at the time included |
| `RefreshSafety.StaleRefreshIssuesRejectedToken` | app/modules/auth/service.py:146-170 | a refresh that read the user before such an event and commits after it issues no access token that is ever honoured |
| `RefreshSafety.RunKeepsOneOpenReset` | app/modules/auth/repository.py:94-103 | in every run a user has at most one password reset token that could still be redeemed |
| `RefreshSafety.PurgeIsAncestorClosed` | app/modules/auth/repository.py:124-128 | with links stamped in order, a purged token's ancestors are purged too |
| `RefreshSafety.PurgeKeepsMarkers` | alembic/versions/20260718_0001_auth.py:70-72 | so ON DELETE SET NULL never erases the reuse marker of a surviving row |
| `RefreshSafety.MarkersSafeIffLinksOutlive` | app/modules/auth/repository.py:124-128 | no purge, whatever its cutoff, erases a marker if and only if every replacement outlives the token it replaced |
| `RefreshSafety.UsableTokensSurvivePurge` | app/modules/auth/repository.py:124-128 | no usable token is purged |
| `RefreshSafety.PurgeCanEraseMarkersUnderInterleaving` | app/modules/auth/repository.py:105-129 | with requests in flight a run exists after which a purge erases a marker |
| `RefreshRace.OtherStepsKeepMarker` | app/modules/auth/service.py:107-228 | no operation but a purge or a closure takes a replaced token, its family or its marker |
| `RefreshRace.PurgeKeepsMarkerIff` | app/modules/auth/repository.py:124-128 | a purge leaves a marker if and only if neither the token nor its replacement is due; when replacements outlive what they replaced, if and only if the token is not |
| `RefreshRace.CloseContainsOrKeeps` | app/modules/auth/service.py:348-362 | closing the owner's account ends the family; closing another leaves the marker |
| `RefreshRace.RereadContainsIffMarked` | app/modules/auth/service.py:152-156 | the reread ends the family exactly when it still finds the marker, and otherwise changes nothing |
| `RefreshRace.LostRaceIsContained` | app/modules/auth/service.py:146-157 | from a claim lost to a concurrent winner, once the loser has reread, the family has no live token in any later state; anything may come between the two transactions except a purge that takes the marker |
| `RefreshRace.MarkerStandsIff` | app/modules/auth/service.py:107-228 | at any later point of a run a marked token is still marked if and only if every purge in between spared the marker and the owner's account was not closed; a lost marker never returns |
| `RefreshRace.RereadContainsIffMarkerKept` | app/modules/auth/service.py:146-157 | whatever comes between a lost claim and the reread, the reread ends the family if no step in between took the marker, and otherwise changes nothing |
| `RefreshRace.PurgeCanHideTheRace` | app/modules/auth/service.py:146-157 | the run with such a purge, after which the winner's token is live |
| `AuthService.AuthService.Register` | app/modules/auth/service.py:87-96 | the new user gets version 0, the given role and the first pair of a new family, valid for the configured time; nothing else changes |
| `AuthService.AuthService.Login` | app/modules/auth/service.py:107-120 | succeeds exactly for an active user with the right password; then one token of a new family is added and the access token is honoured, otherwise nothing changes |
| `AuthService.AuthService.Refresh` | app/modules/auth/service.py:122-170 | run alone: every case column by column (`RefreshSeen`), with its answer: unknown, reused, revoked, expired, inactive, or rotated with a new pair that is usable |
| `AuthService.AuthService.Rotate` | app/modules/auth/service.py:146-169 | claim, insert and link give one rotation; the access token carries the version read |
| `AuthService.AuthService.Logout` | app/modules/auth/service.py:172-177 | revokes exactly the unrevoked tokens of the family and raises the version by one; an unknown token changes nothing |
| `AuthService.AuthService.InvalidateUserSessions` | app/modules/auth/service.py:179-184 | revokes exactly the unrevoked tokens of the user, so that none can be claimed at any time, and raises the version by one |
| `AuthService.AuthService.RequestPasswordReset` | app/modules/auth/service.py:206-219 | for active users only: consumes the open reset tokens and adds one with the configured lifetime |
| `AuthService.AuthService.ConfirmPasswordReset` | app/modules/auth/service.py:221-228 | takes effect if and only if the token is open, unexpired and of an active user and the password passes screening; then it is consumed, the version raised and every refresh token of the user revoked, otherwise nothing changes |
| `AuthService.AuthService.PurgeExpiredAuthTokens` | app/modules/auth/service.py:377-381 | removes exactly the rows whose revocation, consumption or expiry is past the retention; under a clock that never stepped back no surviving row changes, and no usable token goes |
| `AuthService.AuthService.CloseStudentAccount` | app/modules/auth/service.py:348-362 | removes the user with all the user's tokens and resets, and nothing else |
| `AuditChain.VerifyChain` | app/modules/auth/models.py:296-319 | true exactly when every row recomputes and links; otherwise the id of the first row that does not |
| `AuditChain.HashesAgreeIff` | app/modules/auth/models.py:268-292 | with an injective hash two rows have one integrity hash if and only if link, identifier, time and content agree, up to NULL versus {} metadata |
| `AuditChain.LastHashFixesChain` | app/modules/auth/models.py:270-319 | two verified chains with one last hash are equal row for row |
| `AuditChain.OrderUnique` | app/modules/auth/models.py:300-304 | the query order of a table is unique |
| `AuditChain.OrderExists` | app/modules/auth/models.py:300-304 | every table has a query order |
| `AuditChain.TamperEvident` | app/modules/auth/models.py:270-319 | any edit, deletion, insertion or reorder that keeps the last hash makes the table fail verification |
| `AuditChain.DeletionUnnoticedIffNewest` | app/modules/auth/models.py:296-319 | what is left after a deletion verifies if and only if only the newest rows went |
| `AuditChain.FlushExtendsOrder` | app/modules/auth/models.py:346-375 | after a flush the query returns the old rows, then the new ones in flush order, whatever the clock and the ids |
| `AuditChain.FlushVerifies` | app/modules/auth/models.py:322-375 | a flush takes a verifying table to a verifying table |
| `AuditChain.RunVerifies` | app/modules/auth/models.py:322-375 | after any sequence of flushes the table verifies |
| `AuditChain.FlushAppends` | app/modules/auth/models.py:340-375 | the table the hook leaves is that one, stated without the functions that compute it |
| `AuditChain.AuditLogTable.FlushRows` | app/modules/auth/models.py:322-375 | the hook writes nothing if an identifier clashes; otherwise it adds exactly the drafts, linked one to the next, stamped one microsecond apart from the clock on, or from just after the newest row if the clock is not past it; a verifying table stays one |
| `AuditChain.AuditLogTable.RebuildChain` | alembic/versions/20260814_0035_append_only_audit_history.py:65-82 | on arbitrary legacy rows only the hash columns change and the result verifies |
| `SlidingWindow.RecordKeepsBound` | app/core/rate_limit.py:48-58 | one more call keeps every window (t-W, t] at no more than the limit |
| `SlidingWindow.RefusedExactlyWhenFull` | app/core/rate_limit.py:54-56 | a call is refused exactly when the limit is reached in (now-W, now] |
| `SlidingWindow.InWindowIsTrimmedLength` | app/core/rate_limit.py:52-54 | the entries left after trimming are the accepts in the window |
| `RateLimitStores.MemoryRefines` | app/core/rate_limit.py:48-58 | the deque decides as the counter over all accepts does, and still stands for them |
| `RateLimitStores.InMemoryRateLimitStore.Consume` | app/core/rate_limit.py:48-58 | the pop loop and append compute that step on the key and touch no other key |
| `RateLimitStores.RemoveRangeTrims` | app/core/rate_limit.py:68-70 | ZREMRANGEBYSCORE removes exactly the stale entries |
| `RateLimitStores.RedisRateLimitStore.RunScript` | app/core/rate_limit.py:67-79 | the script's commands do what the script relation says, for every choice among equal oldest scores |
| `RateLimitStores.RedisRateLimitStore.Consume` | app/core/rate_limit.py:89-104 | an outage answers unavailable, the script having run or not; otherwise the script's answer |
| `RateLimitStores.ScriptRefines` | app/core/rate_limit.py:67-79 | the sorted set gives the counter's whole answer: its decision, and the wait until the oldest counted accept leaves, rounded up |
| `RateLimitStores.EvictionIsInvisible` | app/core/rate_limit.py:77 | PEXPIRE dropping the key never changes a decision |
| `RateLimitRuns.RunBounded` | app/core/rate_limit.py:48-58 | over every run on a nondecreasing clock no window holds more accepts than the limit |
| `RateLimitRuns.RefusalExact` | app/core/rate_limit.py:54-56 | the i-th call is refused if and only if the limit is already reached in its window |
| `RateLimitRuns.StoresAgree` | app/core/rate_limit.py:42-104 | on one trace both stores allow and deny the same calls |
| `RateLimitRuns.RoomWhenOldestLeaves` | app/core/rate_limit.py:52-58 | after a refusal a later call is admitted exactly when the oldest counted accept has left |
| `RateLimitRuns.RoomAfterRefusals` | app/core/rate_limit.py:52-58 | the same over a run, however many refused calls come between |
| `RateLimitRuns.RedisRetryIsSound` | app/core/rate_limit.py:71-75 | over a run, with only refusals on the key from call i up to call j, call j is admitted if it comes at or after the time call i advertised, and not if it comes a whole second earlier |
| `RateLimitRuns.MemoryRetryIsShort` | app/core/rate_limit.py:55 | the in-memory wait suffices exactly when the remaining time was at most a second or whole seconds; one second more always does |
| `RateLimitRuns.MemoryRetryOverRun` | app/core/rate_limit.py:52-58 | over a run, with only refusals in between: a call at the advertised time is admitted exactly in those cases, and any call a second later is |
| `RateLimitRuns.MemoryRetryFallsShort` | app/core/rate_limit.py:55 | a denial whose advertised wait is too short |
| `RateLimitBackend.ConsumeRefines` | app/core/rate_limit.py:42-104 | one call to either store: it still stands for the accepts so far, and its whole answer, wait included, is the one they call for; only Redis can fail to answer |
| `RateLimitBackend.RoomAfterWait` | app/core/rate_limit.py:52-75 | after a refusal there is room once the advertised wait is over, for the in-memory store one second later |
| `RateLimitBackend.Store.Consume` | app/core/rate_limit.py:36-39 | the protocol both stores fulfil: the call of the one in use, on one key only |
| `RateLimitBackend.CreateStore` | app/core/rate_limit.py:113-120 | the store has the configured backend and stands for no accepts on any key |
| `RateLimitKeys.ChargedExactly` | app/core/rate_limit.py:271-290 | which keys a request is charged to, and each once: its address always; the account of a login, registration or recovery that names one; the token of a verification; otherwise the user; and the shared capacity of logins, assistant and uploads |
| `RateLimitKeys.ChargeOrder` | app/core/rate_limit.py:150-177 | the shared capacity is charged first and the key that says who a request is for last |
| `RateLimitKeys.LimitsAsConfigured` | app/core/rate_limit.py:216-269 | the setting behind the limit of every key, and its window |
| `RateLimitMiddleware.ChargeSound` | app/core/rate_limit.py:303-319 | over either store, charging one key keeps every key's slot in step with its history and answers with that history's decision and wait |
| `RateLimitMiddleware.LongestWaitSuffices` | app/core/rate_limit.py:330-332 | the longest wait, with the second the in-memory store cuts off, is long enough for every refused key: with nothing accepted on it meanwhile it has room again |
| `RateLimitMiddleware.ForwardedBounded` | app/core/rate_limit.py:146-177 | forwarded requests inherit the bound on each of their keys |
| `RateLimitMiddleware.ForwardAdds` | app/core/rate_limit.py:150-177 | a forwarded request adds one accepted charge to each key it counts against and none to any other |
| `RateLimitKeys.KeysFollowPolicy` | app/core/rate_limit.py:150-176 | dispatch pairs every key with that key's own limit and window |
| `RateLimitMiddleware.AuthRateLimitMiddleware.ForwardedStaysBounded` | app/core/rate_limit.py:146-177 | over either store, at any time no window of any key holds more forwarded charges than its limit |
| `RateLimitMiddleware.AuthRateLimitMiddleware.AttemptsStayBounded` | app/core/rate_limit.py:146-177 | in an orderly run, for every account, token and user: no window holds more requests let through for it than its limit |
| `RateLimitMiddleware.AuthRateLimitMiddleware.LoginsStayBounded` | app/core/rate_limit.py:216-222 | so logins let through for one account in any window number at most the login setting, whatever addresses they come from |
| `RateLimitMiddleware.AuthRateLimitMiddleware.RetryAfterSuffices` | app/core/rate_limit.py:330-332 | in an orderly run, over either store: after the wait a refused request is told, every key that refused it has room if nothing was accepted on it meanwhile, for the in-memory store one second later |
| `RateLimitMiddleware.AuthRateLimitMiddleware.ConsumeRequest` | app/core/rate_limit.py:303-338 | all keys are charged, denied requests included; 503 exactly on an outage, 429 exactly when some key denies, with the longest of the waits the keys' histories give |
| `RateLimitMiddleware.AuthRateLimitMiddleware.Dispatch` | app/core/rate_limit.py:146-177 | a request is forwarded exactly when the global stage, if any, and then every client key admit it; what was charged is recorded either way; a 429 tells the longest wait of the stage that refused |
| `ApplicationHistory.SnapshotIsCurrent` | app/modules/applications/command_service.py:146-173 | if the version a request read still matches, the row is the very row it read |
| `ApplicationHistory.OneUpdatePerVersion` | app/modules/applications/command_service.py:165-173 | no two replacements of an application start from one version |
| `ApplicationHistory.VersionCountsUpdates` | app/modules/applications/command_service.py:172 | the version is one more than the number of replacements |
| `ApplicationHistory.TerminalMeansStuck` | app/modules/applications/command_service.py:866-899 | exactly accepted, declined and withdrawn allow no transition |
| `ApplicationHistory.StagesGrow` | app/modules/applications/command_service.py:158-164 | past submission the lifecycle only advances and the submission time never changes |
| `ApplicationHistory.TerminalIsFinal` | app/modules/applications/command_service.py:866-899 | a terminal lifecycle is never left |
| `ApplicationHistory.SubmittedOnce` | app/modules/applications/command_service.py:163-164 | an application enters SUBMITTED at most once |
| `ApplicationHistory.SubmissionIsStamped` | app/modules/applications/command_service.py:101-114 | past submission the date is set if and only if the application did not start past submission without one |
| `ApplicationHistory.UnstampedOrigins` | app/modules/applications/command_service.py:101-113 | only legacy rows that were past submission without a date start that way |
| `ApplicationRuns.CommitReplacesWhatWasRead` | app/modules/applications/command_service.py:158-181 | an update that takes effect replaced the row it validated against, so its transition was legal from there |
| `ApplicationRuns.UpdateSucceedsExactly` | app/modules/applications/command_service.py:146-181 | whatever happened since it read, an update takes effect if and only if the row is unchanged, the version given is its version, the move is allowed and no NOT NULL column is nulled |
| `ApplicationRuns.StepKeepsOk` | app/modules/applications/command_service.py:83-213 | create, update, delete and delete-all keep rows, history, event log and uniqueness in agreement |
| `ApplicationRuns.AtMostOneWinner` | app/modules/applications/command_service.py:165-181 | among all updates of a run with one expected version at most one takes effect |
| `ApplicationRuns.VersionCountsSuccesses` | app/modules/applications/command_service.py:172 | in every run the version is one plus the number of updates answered with success |
| `ApplicationRuns.LogReplays` | app/modules/applications/command_service.py:182-195 | replaying the lifecycle_changed events from the first lifecycle gives the present one, and there is one updated event per success |
| `ApplicationRuns.LifecycleOverRun` | app/modules/applications/command_service.py:158-173 | between any two moments of a run stages and versions do not go back and what is settled stays |
| `ApplicationEffects.MovesAllowed` | app/modules/applications/command_service.py:866-899 | a move is allowed if and only if it goes one step forward, one step back before submission, or withdraws an application still open |
| `ApplicationEffects.LegacyOrigins` | app/modules/applications/command_service.py:849-863 | which statuses of the older tracker become which lifecycle |
| `ApplicationEffects.CreationIsSeen` | app/modules/applications/command_service.py:83-128 | creation adds one row, column by column, and one event, or nothing |
| `ApplicationEffects.UpdateIsSeen` | app/modules/applications/command_service.py:138-197 | an update is refused with the first objection that holds and changes nothing, or edits exactly the named columns of one row and logs the move and the fields sent |
| `ApplicationEffects.AllDeletionsSeen` | app/modules/applications/command_service.py:204-213 | deleting applications removes them and their events and leaves every other row and event trail |
| `ApplicationService.ApplicationCommandService.Create` | app/modules/applications/command_service.py:83-128 | succeeds exactly for a verified opportunity the user has no application for; the row starts at version 1 and continues the legacy row if there is one |
| `ApplicationService.ApplicationCommandService.Update` | app/modules/applications/command_service.py:138-197 | alone, an update answers and acts on the present row as `UpdateSeen` says |
| `ApplicationService.ApplicationCommandService.FinishUpdate` | app/modules/applications/command_service.py:146-197 | from any row read earlier: on success exactly the named columns and the version change and the events are appended; on failure nothing changes and the error is the first objection |
| `ApplicationService.ApplicationCommandService.Delete` | app/modules/applications/command_service.py:199-202 | removes the user's own application and its events, and nothing else |
| `ApplicationService.ApplicationCommandService.DeleteAllApplicationData` | app/modules/applications/command_service.py:204-213 | the loop removes everything the user owns and leaves all other rows as they were |
| `ReminderRuns.PatchKeepsOk` | app/modules/applications/command_service.py:418-431 | an allowed change keeps read_at set exactly for READ, delivered_at set for DELIVERED and READ, and both empty for SCHEDULED |
| `ReminderRuns.DispatchKeepsOk` | app/cli/dispatch_reminders.py:49-68 | a claim keeps all reminders and counters consistent |
| `ReminderRuns.StepKeepsOk` | app/modules/applications/command_service.py:224-439 | every operation on reminders keeps the invariant |
| `ReminderRuns.RunKeepsOk` | app/cli/dispatch_reminders.py:20-81 | the invariant holds in every run, workers overlapping or not |
| `ReminderRuns.DeliveriesMatchSnoozes` | app/cli/dispatch_reminders.py:49-64 | a reminder is delivered at most once more than it was snoozed back, and exactly as often as its present status accounts for |
| `ReminderRuns.DispatchTwiceDeliversOnce` | app/cli/dispatch_reminders.py:49-64 | a committed claim leaves nothing due, so repeating it delivers nothing |
| `ReminderRuns.SilentWhileOptedOut` | app/cli/dispatch_reminders.py:42-57 | from an opt-out to the next opt-in nothing of that user is delivered, whenever it was created |
| `ReminderRuns.RemindersNeverChangeHands` | app/modules/applications/command_service.py:353-439 | over a run a reminder stays with the application and the user it was created for |
| `ReminderRuns.DeliveriesStandStill` | app/cli/dispatch_reminders.py:42-57 | so the delivery count of each of the user's reminders stands still between an opt-out and the next opt-in |
| `ReminderRuns.CancelledUntilRearmed` | app/modules/applications/command_service.py:231-244 | what an opt-out cancelled stays undelivered, even after opting in again, until the student re-schedules or snoozes that reminder |
| `ReminderRuns.StepConserves` | app/cli/dispatch_reminders.py:65-68 | a commit keeps the processed counter right if and only if it delivers nothing or nothing was delivered since its worker started |
| `ReminderRuns.CounterExactIffNoOverlap` | app/cli/dispatch_reminders.py:35-68 | over a run the counter equals the deliveries exactly when no worker commits on top of another's; it never exceeds them |
| `ReminderRuns.OverlapLosesACount` | app/db/session.py:17-22 | two overlapping workers: two deliveries, one counted |
| `ReminderEffects.StatusesReached` | app/modules/applications/command_service.py:65-72 | from which statuses each status can be reached |
| `ReminderEffects.UpdateIsSeen` | app/modules/applications/command_service.py:408-439 | a patch is refused with its error and changes nothing, or changes the one reminder field by field |
| `ReminderEffects.PreferenceIsSeen` | app/modules/applications/command_service.py:224-247 | opting out cancels exactly the user's waiting reminders; opting in touches none |
| `ReminderEffects.DispatchIsSeen` | app/cli/dispatch_reminders.py:33-81 | one worker alone: exactly the due reminders of students not opted out are delivered now, and the health row and the answer say so, under each outcome |
| `ReminderEffects.OverlappingCommit` | app/cli/dispatch_reminders.py:65-68 | a commit that overlaps others writes only the health columns it changed itself, so an error noted meanwhile stays |
| `ReminderService.ReminderStore.CreateReminder` | app/modules/applications/command_service.py:353-406 | idempotent per application and key: the reminder there already, or else a new one |
| `ReminderService.ReminderStore.UpdateReminder` | app/modules/applications/command_service.py:408-439 | statement by statement, the patch described by the transition table; nothing changes on error |
| `ReminderService.ReminderStore.UpdateNotificationPreference` | app/modules/applications/command_service.py:224-247 | opting out leaves nothing of that user waiting |
| `ReminderService.ReminderStore.CancelWaiting` | app/modules/applications/command_service.py:232-244 | the loop cancels exactly the user's scheduled and snoozed reminders |
| `ReminderService.ReminderStore.DispatchDueReminders` | app/cli/dispatch_reminders.py:20-81 | alone, the worker counts every delivery once, whether it commits, fails before or fails after its commit; a rollback delivers nothing |
| `ReminderService.ReminderStore.ClaimDue` | app/cli/dispatch_reminders.py:49-68 | the bulk update delivers exactly what is due to users not opted out and returns how many |
| `TenantPolicies.PoliciesWellFounded` | alembic/versions/20260814_0036_tenant_row_level_security.py:17-183 | policies refer only to tables of lower rank, so their recursion ends; a table without owner column has a mandatory parent |
| `TenantPolicies.VisibleMeansOwned` | alembic/versions/20260814_0036_tenant_row_level_security.py:32-183 | on any database whatever, a visible row has the tenant at its root |
| `TenantPolicies.UnboundSeesNothing` | alembic/versions/20260814_0036_tenant_row_level_security.py:202-226 | a session without tenant sees no row and may write none |
| `TenantPolicies.PoliciesMeanOwnership` | alembic/versions/20260814_0036_tenant_row_level_security.py:17-183 | with owners in agreement the recursive policies mean exactly that the root owner is the tenant |
| `TenantPolicies.GoodIffOwnersSeeTheirRows` | alembic/versions/20260814_0036_tenant_row_level_security.py:17-183 | owners agree if and only if no row is hidden from its owner |
| `TenantWrites.StoreKeepsGood` | alembic/versions/20260814_0036_tenant_row_level_security.py:188-194 | an insert or update that WITH CHECK lets through keeps owners in agreement |
| `TenantWrites.RemovedKeepsGood` | app/modules/document_lab/models.py:240-249 | a delete with its cascades and cleared columns keeps owners in agreement |
| `TenantWrites.DoomedAreOwned` | app/modules/document_lab/models.py:240-249 | a cascade stays within the rows of the owner of the row deleted |
| `TenantWrites.ApplyKeepsGood` | alembic/versions/20260814_0036_tenant_row_level_security.py:188-194 | every statement of a tenant session keeps owners in agreement |
| `TenantWrites.PassesInView` | alembic/versions/20260814_0036_tenant_row_level_security.py:188-194 | a policy says the same of a row over the whole database and over the tenant's view |
| `TenantWrites.OwnStatement` | alembic/versions/20260814_0036_tenant_row_level_security.py:188-194 | a statement does to the tenant's view what it would do to a database holding only that view |
| `TenantWrites.OthersStatement` | alembic/versions/20260814_0036_tenant_row_level_security.py:188-194 | no statement of another tenant changes a view |
| `TenantWrites.RunsKeepOwnership` | alembic/versions/20260814_0036_tenant_row_level_security.py:17-194 | in every state reachable by tenant statements and good privileged writes, visible means owned at the root |
| `TenantWrites.EachTenantAsIfAlone` | alembic/versions/20260814_0036_tenant_row_level_security.py:17-194 | after any interleaving a tenant's view is what its own statements alone make of its own rows |
| `TenantVisibility.PolicySpelledOut` | alembic/versions/20260814_0036_tenant_row_level_security.py:17-183 | for each of the thirty tables, what the policy demands of a row with every subquery written out down to owner columns |
| `TenantVisibility.VisibleSpelledOut` | alembic/versions/20260814_0036_tenant_row_level_security.py:17-194 | a row is visible to a tenant if and only if it is there and meets those demands |
| `TenantVisibility.SelectionSpelledOut` | alembic/versions/20260814_0036_tenant_row_level_security.py:188-226 | a session selects every row under the bypass, none when unbound, and otherwise exactly its tenant's |
| `TenantVisibility.MayWriteExactly` | alembic/versions/20260814_0036_tenant_row_level_security.py:188-194 | with owners in agreement, a tenant's statement takes effect if and only if it stores a row that would be its own at an unused key or over its own row, or deletes its own row and nothing that survives needs what would go |
| `TenantVisibility.StatementTakesEffect` | alembic/versions/20260814_0036_tenant_row_level_security.py:188-194 | then the row stored is there and the rows deleted are gone; a refused statement changes nothing |
| `TenantVisibility.ReactionsSpelledOut` | app/modules/document_lab/models.py:240-249 | which columns are cleared, which refuse and which take their row along when what they name is deleted |
| `TenantVisibility.TrackedOpportunityGoes` | app/modules/applications/models.py:163-166 | deleting a tracked opportunity deletes no other row and clears it from the applications that named it |
| `TenantSession.StepKeepsFaithful` | app/db/session.py:46-85 | no transaction or savepoint level ever carries a foreign context, and a bound session keeps its tenant |
| `TenantSession.StepKeepsExact` | app/db/session.py:63-85 | every level carries the session's context unless the first binding is made inside a savepoint |
| `TenantSession.ContextApplied` | app/db/session.py:46-85 | beginning a transaction, opening a savepoint and binding put the session's own context in force; a refused binding changes nothing |
| `TenantSession.LevelsKept` | app/db/session.py:63-70 | what each step does to the open levels below, and that ending a transaction leaves no tenant in force |
| `TenantSession.SessionNeverChangesTenant` | app/db/session.py:73-80 | over a run a session keeps its kind and, once bound, its tenant |
| `TenantSession.ContextExactIffNotNested` | app/db/session.py:63-85 | a run keeps the context exact throughout if and only if it makes no first binding inside a savepoint |
| `TenantSession.NestedBindingIsLost` | app/db/session.py:82-85 | the run that shows it |
| `TenantSession.SessionSelectsItsTenantsRows` | app/db/session.py:46-85 | with the policies: at every moment a session selects only rows of the one tenant it is ever bound to, all of them when exact, and none outside a transaction |
| `TenantSession.Session.ApplyContext` | app/db/session.py:46-60 | sets both settings of the level in force, on PostgreSQL only |
| `TenantSession.Session.BeginTransaction` | app/db/session.py:63-70 | every transaction begins in the session's context |
| `TenantSession.Session.EndTransaction` | app/db/session.py:63-70 | nothing set in a transaction outlives it |
| `TenantSession.Session.BindTenant` | app/db/session.py:73-85 | refuses privileged sessions and changes of tenant without effect; otherwise binds, and at once if in a transaction |
| `AcquisitionPlanner.DistinctItems` | app/modules/catalogue_ingestion/acquisition_planner.py:167-179 | keywords are distinct under case folding, none is empty and none is missing |
| `AcquisitionPlanner.NormalizedKeywords` | app/modules/catalogue_ingestion/acquisition_planner.py:167-179 | the loop computes them, at most 32 of at most 160 characters |
| `AcquisitionPlanner.LeqOrder` | app/modules/catalogue_ingestion/acquisition_planner.py:133-141 | sort keys are totally ordered |
| `AcquisitionPlanner.SortedKeepsFirst` | app/modules/catalogue_ingestion/acquisition_planner.py:133-141 | the sort is stable |
| `AcquisitionPlanner.SortInPlace` | app/modules/catalogue_ingestion/acquisition_planner.py:133-141 | the array is sorted in place, stably |
| `AcquisitionPlanner.SortedKeysAgree` | app/modules/catalogue_ingestion/acquisition_planner.py:133-141 | sorting any permutation gives the same sequence of keys |
| `AcquisitionPlanner.CanonicalIffKeysDecide` | app/modules/catalogue_ingestion/acquisition_planner.py:85-164 | the plan is the same for every row order if and only if unresolved rows with equal keys have equal needs |
| `AcquisitionPlanner.SchemaMakesPlansCanonical` | alembic/versions/20260830_0047_catalogue_scoped_coverage.py:80-86 | given the unique constraints, and cells on nodes of their own candidate, every row order gives the same plan |
| `AcquisitionPlanner.UnalignedPlanDepends` | alembic/versions/20260830_0047_catalogue_scoped_coverage.py:313-326 | the constraints alone do not suffice |
| `AcquisitionPlanner.PlanListsUnresolvedCells` | app/modules/catalogue_ingestion/acquisition_planner.py:121-159 | a plan lists every required non-terminal cell once, no other, in priority order |
| `AcquisitionPlanner.SplitRows` | app/modules/catalogue_ingestion/acquisition_planner.py:121-125 | the loop over the rows keeps the unresolved ones in order and collects the versions of all |
| `AcquisitionPlanner.MakePlan` | app/modules/catalogue_ingestion/acquisition_planner.py:85-164 | filter, in-place sort and listing loops give the plan; `PlanListsUnresolvedCells` and `CanonicalIffKeysDecide` say what it holds |
| `AcquisitionNeeds.StatesByUrgency` | app/modules/catalogue_ingestion/acquisition_planner.py:23-36 | which states are settled, and the place of every other in the order of urgency |
| `AcquisitionNeeds.KeysCompare` | app/modules/catalogue_ingestion/acquisition_planner.py:133-141 | rows are ordered by urgency, objective, kind of node, lifecycle and key, texts by their first difference |
| `AcquisitionNeeds.ItemsInOrder` | app/modules/catalogue_ingestion/acquisition_planner.py:167-179 | keywords are the first occurrences in order |
| `AcquisitionNeeds.KeywordsAreItems` | app/modules/catalogue_ingestion/acquisition_planner.py:178-179 | at most 32 of them, each the first 160 characters |
| `AcquisitionNeeds.PlanSpelledOut` | app/modules/catalogue_ingestion/acquisition_planner.py:121-164 | one need for each unresolved row, field by field, in that order, rows that sort alike in the order read |
| `AcquisitionNeeds.FirstPlanSpelledOut` | app/modules/catalogue_ingestion/acquisition_planner.py:103-119 | the twelve needs of a candidate without coverage |
| `AcquisitionNeeds.RevisionMeans` | app/modules/catalogue_ingestion/acquisition_planner.py:124-125 | the revision is the version that some row names and none contradicts |
| `AssistantCitations.ComposeResponse` | app/modules/assistant/service.py:499-634 | for at most three opportunities, every quoted claim is stated once as a fact or requirement under a placeholder, and every opportunity is proposed |
| `AssistantCitations.QuotesAreWhatIsSaid` | app/modules/assistant/service.py:521-609 | a listing is quoted for exactly what it says under the keys of the question's kind, with its own source, in the order of the keys |
| `AssistantCitations.FirstThreeAreUsed` | app/modules/assistant/service.py:521 | at most the first three retrieved opportunities are used |
| `AssistantCitations.LatestIndex` | app/modules/assistant/service.py:837-841 | the cited excerpt is the first of the latest ones |
| `AssistantCitations.StoreCitations` | app/modules/assistant/service.py:830-853 | one stored citation per quote, with distinct ids |
| `AssistantCitations.StoredRepeatsQuote` | app/modules/assistant/service.py:836-851 | a stored citation repeats its quote and names the newest excerpt of the source, if there is one |
| `AssistantCitations.AttachFact` | app/modules/assistant/service.py:864-867 | a fact cites the first stored citation with its text |
| `AssistantCitations.IndexByOpportunity` | app/modules/assistant/service.py:861-863 | the last degree citation of each opportunity |
| `AssistantCitations.AttachRequirement` | app/modules/assistant/service.py:872-878 | a requirement cites the last document citation with its text |
| `AssistantCitations.AttachCitations` | app/modules/assistant/service.py:855-880 | attaches to every statement in turn |
| `AssistantCitations.AnswersAreGrounded` | app/modules/assistant/service.py:499-634 | every fact and requirement cites a stored citation claiming exactly its text, every match its own opportunity's degree citation, and no placeholder survives |
| `AssistantCitations.FactCitesOwnRecord` | app/modules/assistant/service.py:864-867 | a fact cites its own opportunity exactly when the first quote in those words is that opportunity's |
| `AssistantCitations.TwinsShareACitation` | app/modules/assistant/service.py:864-867 | for any list of listings: if an earlier listing makes the same degree claim, the fact that states a listing's claim cites no record of that listing's opportunity |
| `AssistantCitations.AnswerFromEvidence` | app/modules/assistant/service.py:142-171 | compose, store and attach with the evidence-template provider give a grounded answer |

## Left out

- Transactions that overlap inside PostgreSQL: every transaction is atomic, so races such as the read-modify-write of `token_version`, or an opt-out committing while a bulk claim runs, are not modelled.
- HTTP routes, request parsing, schemas, rendering and error bodies; the front end; SMTP; OAuth; breached-password lookup.
- JWT signing and expiry of access tokens, password hashing, CRC-32, inflate and SHA-256 themselves.
- Account closure's role and password check: `CloseStudentAccount` is the authorized path.
- Email verification and admin step-up tokens, WebAuthn challenges, data export, beta reservations: single-row state changes.
- The limiter's `_consume` seam, health checks, and the path matching of `_route_class`: a request arrives with its route class.
- Application tasks, documents, starter tasks, deadline projections and the dashboard; task and evidence checks arrive as a verdict.
- The operational job records kept beside the reminder worker's health row.
- Reminder statuses written by nobody: FAILED appears only as a starting point of transitions.
- The retrieval query of the assistant, its freshness policy, quotas, matching and confidence: a retrieved opportunity arrives with the sentences its record is quoted by, and placeholder ids never equal stored ones.
- Columns the policies do not mention: three foreign keys among protected tables (`application_reminders.task_id`, `application_documents.task_id`, `match_evaluations.supersedes_evaluation_id`) and all references to unprotected tables.
- TenantWrites.RemovedKeepsGood: a RESTRICT column refuses a delete only if its row would survive; PostgreSQL may also refuse when the row is deleted by the same cascade, depending on trigger order, and then nothing changes.
- TenantWrites.EachTenantAsIfAlone: inserts use ids not in use, so that a primary-key clash with an invisible row, which PostgreSQL reports, does not arise.
- TenantSession.Session.BeginTransaction: the lazy start of a savepoint on its first statement is modelled as starting with the savepoint.
- AuditChain.TamperEvident: the hash is assumed injective, which SHA-256 is only as far as collisions stay unknown.
- AuditChain.AuditLogTable.FlushRows: the advisory lock that serializes flushes is the assumption that flushes run one at a time; the triggers that block updates are not modelled.
- RateLimitRuns.StoresAgree: both stores read one clock in whole milliseconds.
- AcquisitionPlanner.DistinctItems: distinctness is before items are cut to 160 characters; cut items can coincide.
- ReminderService.ReminderStore.CreateReminder: two creations racing on one key are not modelled, the call being one step; in the code the loser's insert fails when it is flushed, before the handler for that error.
