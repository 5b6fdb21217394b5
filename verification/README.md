# ZaaS in Dafny

A model of the parts of the ZaaS repository whose behaviour is hardest to see from one function:
the sliding-window rate limiters, the life of an API key across concurrent requests, the
grandfather-father-son backups, and two compact algorithms (RGB to HSL, the documentation link
checker). Everything is proved for all inputs, all runs and all interleavings that the definitions
admit. `dafny verify dfyconfig.toml` checks the whole project.

## How it is organised

**Rate limiting.** `SlidingWindow` holds the arithmetic both backends share. `MemoryTable` gives the
two critical sections of the in-process limiter as functions on a table, `MemoryRateLimiter` is the
limiter as an object (entries by reference, a slice compacted in place) and is proved to compute
exactly those functions. `MemoryConcurrent` interleaves clock readings, critical sections and
cleanups; `MemoryRuns` is the non-decreasing clock, where the limiter refines a log that never
forgets. `RedisScript` has the sorted-set commands, the script and the reply decoder; `RedisReplicas`
interleaves replicas and key expiry; `BackendAgreement` runs both backends side by side.
`RateLimitMiddleware` adds the choice of key and the Retry-After header. Instants are nanoseconds in
process and milliseconds on Redis.

**API keys.** `AuthStore` has the two tables and one function and one method per SQL statement, for
Postgres and for the in-memory store of the handler tests. `AuthProtocol` makes every statement an
atomic step of a request process that can fail or stop anywhere, and carries the invariant;
`AuthGuarantees` draws the conclusions. `AuthHandlers` has the three handlers as sequential code, each
proved to be its process running alone. `AuthMiddleware` is the check on every request, and
`AuthEndToEnd` says what undisturbed requests and whole flows of them come to. A secret is
represented by its 64-character hash, fresh whenever one is generated.

**Backups.** `Calendar` is the Gregorian calendar over day numbers. `BackupJob` is one machine for both
scripts, command by command, in which any command may fail and the machine may die during any command;
`BackupScripts` has the scripts as programs with a loop, two shell variables and an exit trap, proved
to be runs of that machine. `BackupRetention` is the invariant, `BackupGuarantees` the results, and
`BackupWitnesses` has runs: the one in which nothing fails, and some in which something goes wrong.
`BackupMetrics` prints and re-parses the metrics file, text for text.

**Algorithms.** `Color` for real channels and `ColorIntegers` for the integers that occur, `DocAnchors`
and `DocLinks`. `Collections` holds what several modules use.

## Where the code and its documentation disagree

- `docs/reference/architecture.md:178` says that verifying a reissue returns a new key. On the Postgres
  statements it never does: the client is verified already, so the last update touches no row and the
  request fails after the old key has been revoked, and the email can never have an accepted key
  again. On the in-memory store of the tests it works as documented. The model follows the code of
  both, and proves what each gives.
- The scripts say "7 daily, 4 weekly, 6 monthly". Because `find -mtime +N` selects what is older than N
  whole days, a completed run leaves 8 or 9 daily, 4 or 5 weekly and 5 to 7 monthly archives.
- `docs/explanation/design-decisions.md:105` says the window bounds the rate continuously. With the
  clock read outside the lock the full 60 seconds hold if calls are processed in the order of their
  readings; in general the interval shrinks by how far a reading lags behind the latest call
  processed. Cleanups do not matter, unless one overtakes a call that has been waiting for the lock
  for more than nine minutes after reading the clock. With replicas the interval shrinks by twice the
  clock error. All three conditions are shown to be exact.
- `scripts/check-doc-links.py:53` promises every anchor GitHub would generate, repeats numbered. When a
  heading is itself called like a numbered repeat, two headings get the same anchor.
- The comments of the backup scripts keep a failed run from leaving a file that looks like a backup.
  That holds for the daily directory; the copies to weekly and monthly are not atomic, and a run of
  the PostgreSQL script is given that ends with a truncated monthly archive.

## Model

| member | source | states |
|---|---|---|
| MemoryRateLimiter.WindowEntry.Evict | api/internal/ratelimiter/memory.go:63-70 | The loop that appends into the array it is reading leaves exactly the stamps later than the window start, in their old order |
| MemoryRateLimiter.WindowEntry.Append | api/internal/ratelimiter/memory.go:76 | One stamp is added at the end, in place or in a fresh larger array |
| MemoryRateLimiter.WindowEntry.Take | api/internal/ratelimiter/memory.go:60-97 | The entry ends with the surviving stamps and the new one if admitted; Remaining is the free places left, never negative and zero on a denial |
| MemoryRateLimiter.MemoryRateLimiter.AllowN | api/internal/ratelimiter/memory.go:49-98 | The call changes the entry of its key and no other, and answers from the stamps within the last minute; a limit of zero or less changes nothing and is denied for a minute; Remaining is never negative and zero on a denial |
| MemoryRateLimiter.MemoryRateLimiter.Allow | api/internal/ratelimiter/memory.go:43-45 | The same with the configured limit |
| MemoryRateLimiter.MemoryRateLimiter.GetOrCreate | api/internal/ratelimiter/memory.go:100-107 | The entry of the key exists afterwards and every entry keeps its contents |
| MemoryRateLimiter.MemoryRateLimiter.Cleanup | api/internal/ratelimiter/memory.go:128-137 | Exactly the entries idle for more than ten minutes are deleted, in whatever order the map is visited |
| SlidingWindow.AfterSorted | api/internal/ratelimiter/memory.go:63-70 | Eviction keeps a sorted list sorted and leaves only stamps inside the window |
| SlidingWindow.CountAfter | api/internal/ratelimiter/memory.go:63-70 | Eviction changes no count over an interval that starts after what it evicts |
| MemoryTable.CallTracks | api/internal/ratelimiter/memory.go:57-97 | A call whose reading lags by at most the bound keeps the table and the log of all admissions in agreement inside the window |
| MemoryTable.CleanTracks | api/internal/ratelimiter/memory.go:128-137 | Deleting idle entries loses no stamp that a call can look at whose reading is at most nine minutes older than the cleanup's |
| MemoryTable.CallBounded | api/internal/ratelimiter/memory.go:72-78 | Admission keeps every interval of 60 s minus the lag within the limit |
| MemoryConcurrent.ApplyKeepsInv | api/internal/ratelimiter/memory.go:54-97 | Every tick, reading, critical section and cleanup keeps table and log in step |
| MemoryConcurrent.ConcurrentWindowBound | api/internal/ratelimiter/memory.go:54-78 | In every interleaving of readings, critical sections and cleanups, with no call's reading more than `lag` behind the latest call processed nor more than nine minutes behind a cleanup that overtook it, each half-open interval of 60 s minus `lag` holds at most the limit of admitted stamps of a key |
| MemoryConcurrent.WindowBoundIsTight | api/internal/ratelimiter/memory.go:54-57 | For every lag a legal run breaks the bound for an interval one nanosecond longer |
| MemoryConcurrent.GraceIsExact | api/internal/ratelimiter/memory.go:128-137 | The nine minutes are exact: for every lag a cleanup that overtakes a call one nanosecond later breaks the bound |
| MemoryRuns.RefinesFullLog | api/internal/ratelimiter/memory.go:49-98 | On a non-decreasing clock the limiter, despite eviction and cleanup, answers exactly like one that keeps every admitted stamp forever |
| MemoryRuns.KeysAreIsolated | api/internal/ratelimiter/memory.go:60-97 | An answer on a key is the same as if no other key had been used and no cleanup had run |
| MemoryRuns.AnswerDescribesWindow | api/internal/ratelimiter/memory.go:80-97 | Whatever limits earlier calls asked for, Remaining and ResetAt of an answer are the free places and the end of the oldest stamp's minute in the window just after the call |
| MemoryRuns.RemainingIsExact | api/internal/ratelimiter/memory.go:72-83 | After an answer with Remaining r, of the calls on the key before ResetAt exactly the first r are admitted; r is never negative, and zero on every denial, also when the limit was lowered |
| MemoryRuns.ResetAtIsExact | api/internal/ratelimiter/memory.go:85-97 | ResetAt lies after the call and within one minute; after a denial calls before it are denied and, if the limit was always the same, the first at or after it is admitted |
| MemoryRuns.NothingForNoLimit | api/internal/ratelimiter/memory.go:50-52 | A limit of zero or less is denied with ResetAt a minute away and leaves no trace |
| RedisScript.Server.SlidingWindow | api/internal/ratelimiter/redis.go:24-54 | The script, command by command, leaves the trimmed set with the new member if there is room, a fresh deadline if it admitted, and no key if the set is empty; its reply is what that set determines |
| RedisScript.Server.ZRangeFirst | api/internal/ratelimiter/redis.go:47-51 | The lowest score in the set, or nothing for a missing key |
| RedisScript.ParseScriptResult | api/internal/ratelimiter/redis.go:165-182 | Succeeds exactly on three integers; the length error takes precedence over the type error; allowed only for 1 |
| RedisScript.RemainingIsFree | api/internal/ratelimiter/redis.go:131-134 | For every reply, Remaining is the number of free places in the set the script leaves, never negative, and zero on a denial |
| RedisScript.RedisRateLimiter.AllowN | api/internal/ratelimiter/redis.go:104-148 | Denies a non-positive limit without a call; returns the answer made of the reply, or an error when no reply arrives, although the script may have run |
| RedisScript.RedisRateLimiter.Allow | api/internal/ratelimiter/redis.go:98-100 | The same with the configured limit |
| RedisReplicas.TrimmedSize | api/internal/ratelimiter/redis.go:32-35 | The number of members left by the trim is the number of admitted stamps later than its bound |
| RedisReplicas.ApplyKeepsInv | api/internal/ratelimiter/redis.go:31-44 | Ticks, script calls and expiry keep every admission that a call within the clock error would count; expiry is invisible to later decisions |
| RedisReplicas.ReplicatedWindowBound | api/internal/ratelimiter/redis.go:31-44 | With every caller's clock within e of the server's, each half-open interval of 60000 - 2e ms holds at most the limit of admitted stamps of a key, in every interleaving of replicas and expiry |
| RedisReplicas.ReplicatedBoundIsTight | api/internal/ratelimiter/redis.go:109-121 | For every clock error a legal run breaks the bound for an interval one millisecond longer |
| RedisReplicas.KeysAreShortLived | api/internal/ratelimiter/redis.go:39-41 | In every run each key holds something and may vanish at the latest a minute from now |
| BackendAgreement.SameStamps | docs/explanation/design-decisions.md:101 | After the same operations both backends have admitted the same stamps |
| BackendAgreement.OldestOfSet | api/internal/ratelimiter/redis.go:46-53 | The lowest score of the set is the first stamp of the window, so both compute ResetAt from the same instant |
| BackendAgreement.BackendsAgree | docs/explanation/design-decisions.md:101 | On one non-decreasing millisecond clock after the epoch both backends give the same Allowed, Remaining and ResetAt at each call, with cleanups and expiries at any moment |
| BackendAgreement.RemainingIsExactOnRedis | api/internal/ratelimiter/redis.go:126-141 | After any reply with Remaining r, of the calls on the key before ResetAt exactly the first r are admitted, also after a limit was lowered and whichever keys expire |
| RateLimitMiddleware.Serve | api/internal/middleware/ratelimit.go:47-120 | In process: an authenticated caller is counted under its own key and limit, anyone else under the address and the limiter's default; the response tells the answer: forwarded exactly when allowed, its Remaining, its ResetAt in whole seconds, the caller's limit, and a Retry-After that undershoots ResetAt by less than a second |
| RateLimitMiddleware.ServeOnRedis | api/internal/middleware/ratelimit.go:47-120 | The same on Redis; when the call fails the request is refused with 503 on routes that fail closed and let through on the others |
| RateLimitMiddleware.ResponseTells | api/internal/middleware/ratelimit.go:87-119 | What status, limit, remaining, reset and Retry-After of a response say about the answer it was made of |
| RateLimitMiddleware.RetryAfterBounds | api/internal/middleware/ratelimit.go:98-103 | On every run the response is a 429 exactly on a denial, with a Retry-After from 1 to 60 that undershoots ResetAt by less than a second |
| RateLimitMiddleware.LoneClientAfterRefusal | api/internal/middleware/ratelimit.go:98-103 | With a constant limit a lone client coming back after the header's seconds is admitted exactly if ResetAt has been reached; one second later it always is |
| AuthStore.Store.CreateClient | api/internal/store/postgres.go:32-44 | Inserts an unverified row, or reports that the email exists |
| AuthStore.Store.GetClientByEmail | api/internal/store/postgres.go:46-51 | A row is found exactly for an email that has one, and it is that row |
| AuthStore.Store.GetClientByAPIKeyHash | api/internal/store/postgres.go:53-58 | Some row with that hash, and none only if there is none |
| AuthStore.Store.MarkClientVerified | api/internal/store/postgres.go:60-73 | On Postgres only an unverified row is updated; on the test store any row is, and its revocation is cleared |
| AuthStore.Store.RevokeClient | api/internal/store/postgres.go:75-87 | On Postgres only an unrevoked row is updated |
| AuthStore.Store.CreateToken | api/internal/store/postgres.go:106-116 | A new unused token row |
| AuthStore.Store.ConsumeToken | api/internal/store/postgres.go:118-136 | Marks every usable row with that hash and type as used and returns the first, or finds none |
| AuthStore.ConsumeMarksUsable | api/internal/store/postgres.go:118-136 | Each usable row is marked as used now, no other row changes, and the first usable one is returned |
| AuthProtocol.ConsumeKeepsTokens | api/internal/store/postgres.go:118-136 | The returned row was unused, is of the requested type and is consumed in time |
| AuthProtocol.ApplyKeepsInv | api/internal/handler/auth.go:70-149 | Every statement of every handler, every failure and every stop keeps the protocol's invariant, on both stores |
| AuthProtocol.ReachableInv | api/internal/handler/auth.go:70-149 | The invariant holds in every reachable state of every interleaving |
| AuthGuarantees.RunIsFinal | api/internal/store/postgres.go:60-87 | On Postgres a verified client keeps its hash and the time it was verified, and a revoked one the time it was revoked, whatever happens |
| AuthGuarantees.OthersUntouched | api/internal/store/postgres.go:60-87 | A statement changes no other client than the one its request is about |
| AuthGuarantees.TokensOnlyUsed | api/internal/store/postgres.go:106-136 | Tokens are only added, or marked as used by a request that names them and their type |
| AuthGuarantees.RevocationIsAbsorbing | api/internal/store/postgres.go:75-87 | On Postgres a revoked email never has an accepted key again |
| AuthGuarantees.OneKeyEverAccepted | api/internal/middleware/auth.go:50-57 | On Postgres at most one key is ever accepted for an email, over the whole life of the database |
| AuthGuarantees.OneKeyPerEmail | api/internal/handler/auth.go:127-149 | On Postgres no two requests are answered with a key for the same email |
| AuthGuarantees.NoKeyForReissue | docs/reference/architecture.md:178 | On Postgres no reissue verification is ever answered with a key |
| AuthGuarantees.HashHasOneOwner | api/internal/store/postgres.go:53-58 | No two clients carry the same issued hash, on either store |
| AuthGuarantees.Provenance | api/internal/handler/auth.go:120-149 | An accepted key was stored by a request that consumed a token of that email, of the requested type, before it expired, and no other key came from that token |
| AuthGuarantees.KeysCountTokens | api/internal/store/postgres.go:118-136 | Keys issued are at most tokens used, and those at most tokens created |
| AuthGuarantees.NewestKeyAccepted | api/internal/handler/auth_test.go:79-90 | On the test store, in any interleaving, the key just stored is exactly the one accepted for its email |
| AuthGuarantees.ReissueSeparatesStores | api/internal/handler/auth_test.go:79-100 | From any reachable state an uninterrupted reissue ends on Postgres with an error and no accepted key, and on the test store with exactly the new key accepted |
| AuthGuarantees.ReissueLocksOut | api/internal/store/postgres.go:60-87 | On Postgres the second statement of a reissue locks the email out for good |
| AuthHandlers.AuthRegister | api/internal/handler/auth.go:68-105 | The handler's statements, branches and reply are those of its process running alone, wherever the database starts failing |
| AuthHandlers.AuthVerify | api/internal/handler/auth.go:127-163 | The same for verify, including the revocation before the new key of a reissue |
| AuthHandlers.AuthReissue | api/internal/handler/auth.go:184-204 | The same for reissue, which answers 202 in every case |
| AuthMiddleware.ReachableOneOwner | api/internal/middleware/auth.go:50-53 | In every reachable state the lookup by hash has at most one row to find |
| AuthMiddleware.BearerInAnyCase | api/internal/middleware/auth.go:35-36 | The scheme is recognised letter by letter, each small or capital |
| AuthMiddleware.Auth | api/internal/middleware/auth.go:23-72 | Anonymous exactly without the header; let through as a client only with a bearer key accepted for it, and always with one whose hash has no other owner |
| AuthEndToEnd.VerifyAnswered | api/internal/handler/auth.go:127-163 | From every reachable state an undisturbed verify of a usable token is answered with the new key exactly if the client exists and, on Postgres, the token is a registration's and the client not yet verified; that key is then the one accepted unless the client was revoked; without a usable token the answer is 400 and nothing changes |
| AuthEndToEnd.VerifyCutShort | api/internal/handler/auth.go:127-149 | If a statement of a verify fails no key is given out: 400 for the first, else 500 |
| AuthEndToEnd.RegisterAnswered | api/internal/handler/auth.go:68-105 | A register of an email with a live key changes nothing; any other leaves an unused token for 24 hours, and a client if there was none; both are answered alike |
| AuthEndToEnd.RegisterCutShort | api/internal/handler/auth.go:70-96 | If a statement of a register fails it is answered 500 and no token is left |
| AuthEndToEnd.ReissueAnswered | api/internal/handler/auth.go:184-204 | Answered alike for every email; a token for 24 hours is left for a verified one only |
| AuthEndToEnd.RegisterThenVerify | api/internal/handler/auth.go:45-164 | A new or unverified email that registers and verifies within 24 hours gets the one accepted key of its client, and none afterwards |
| AuthEndToEnd.ReissueThenVerify | docs/reference/architecture.md:175-178 | A live key that is reissued and verified is replaced on the test store, and lost without replacement on Postgres |
| AuthEndToEnd.SignUp | api/internal/middleware/auth.go:35-69 | Through the handlers and the middleware: whoever registers a new email and verifies in time is let through with the key |
| Calendar.YearStart | deploy/scripts/backup-postgres.sh:19-21 | The calendar against the closed form for the first day of a year |
| Calendar.MonthStartIsCivil | deploy/scripts/backup-postgres.sh:19-21 | Every month starts where the March-based day formula puts its first day |
| Calendar.CivilDate | deploy/scripts/backup-postgres.sh:19-21 | Month and day of the month of a day number are those of the civil date with that number |
| Calendar.WeekdaysFollow | deploy/scripts/backup-postgres.sh:20 | Day 0 is a Thursday and the days of the week follow each other |
| Calendar.TwoSundays | deploy/scripts/backup-postgres.sh:45-51 | 31 March 2024 is a Sunday that is not promoted to monthly, 7 April 2024 is one that is |
| Calendar.OneFirstSundayPerMonth | deploy/scripts/backup-postgres.sh:45-55 | Every month has exactly one Sunday among its first seven days |
| Calendar.FirstSundaysIncrease | deploy/scripts/backup-postgres.sh:50-55 | First Sundays are four or five weeks apart |
| BackupJob.ApplyKeepsDaily | deploy/scripts/backup-postgres.sh:36-41 | No command, failure or death puts an incomplete file into the daily directory |
| BackupJob.ApplyKeepsMatched | deploy/scripts/backup-volumes.sh:78-92 | Start attempts follow the services recorded as stopped, one for one |
| BackupScripts.Host.Archive | deploy/scripts/backup-volumes.sh:97-123 | The loop body up to the archive's place does what the machine does, command for command |
| BackupScripts.Host.Promote | deploy/scripts/backup-volumes.sh:126-136 | The copies of one archive, on the days that call for them |
| BackupScripts.Host.ArchiveAll | deploy/scripts/backup-volumes.sh:96-137 | The loop over the archives, with its early ends |
| BackupScripts.Host.RotateAll | deploy/scripts/backup-volumes.sh:139-145 | The three rotations and the sweep |
| BackupScripts.Host.Trap | deploy/scripts/backup-volumes.sh:88-92 | The exit trap: a failing rm keeps it from starting the service |
| BackupScripts.Host.Backup | deploy/scripts/backup-postgres.sh:12-65 | One invocation is a run of the machine, however long its commands take, whichever fail, and whichever the machine dies in |
| BackupScripts.PlayIsARun | deploy/scripts/backup-volumes.sh:94-147 | What a played script reaches is reached by a legal run, so the guarantees about runs hold of it |
| BackupRetention.OnlyRotationDeletes | deploy/scripts/backup-postgres.sh:57-60 | Only a rotation deletes from a tier, and only what is more than N whole days old |
| BackupRetention.ApplyKeepsInv | deploy/scripts/backup-postgres.sh:34-63 | Every event keeps the whole backup invariant |
| BackupGuarantees.FinishedArchivesAreWhole | deploy/scripts/backup-postgres.sh:36-41 | Whatever failed or died, every finished daily archive is complete and verified |
| BackupGuarantees.PromotedArchivesAreWholeIff | deploy/scripts/backup-postgres.sh:45-55 | Weekly and monthly archives are complete and verified at every moment of a run if and only if no interrupted cp left a bad file |
| BackupGuarantees.MoveIsOfTemp | deploy/scripts/backup-volumes.sh:122-123 | The move puts the verified temporary file itself in place and forgets it |
| BackupGuarantees.CopyIsOfToday | deploy/scripts/backup-postgres.sh:45-55 | A copy puts today's daily archive in its own tier, dated now, and changes no other |
| BackupGuarantees.CopyCanBeTorn | deploy/scripts/backup-postgres.sh:46-55 | Any run that gets to a copy, weekly or monthly, can die inside it and leave a truncated archive |
| BackupWitnesses.MonthlyCopyTorn | deploy/scripts/backup-postgres.sh:50-53 | A run of the PostgreSQL script, from nothing, that ends with a truncated monthly archive |
| BackupGuarantees.DeletesOnlyAfterAllArePlaced | deploy/scripts/backup-postgres.sh:39-60 | An archive is deleted only when expired and only after all archives of the run are in place in every tier |
| BackupGuarantees.StoppedServicesAreStarted | deploy/scripts/backup-volumes.sh:78-92 | When a run ends by itself every service recorded as stopped has had a start attempt, exactly unless the trap's rm failed first |
| BackupGuarantees.NoTempLeft | deploy/scripts/backup-volumes.sh:88-92 | A run that ends by itself past the trap's rm leaves no temporary file of its own |
| BackupGuarantees.SweptTemps | deploy/scripts/backup-postgres.sh:62-63 | The sweep leaves exactly the temporary files less than two days old |
| BackupGuarantees.RotationInDays | deploy/scripts/backup-postgres.sh:57-60 | A rotation leaves exactly the archives of at most 7, 28 or 180 whole days |
| BackupWitnesses.UndisturbedRunCompletes | deploy/scripts/backup-postgres.sh:34-65 | Whatever happened before, a run in which nothing fails gets to its end and completes its day |
| BackupWitnesses.ServiceLeftStopped | deploy/scripts/backup-volumes.sh:88-92 | A run in which tar and then the trap's rm fail ends with the service stopped and no start attempt |
| BackupWitnesses.GrafanaLeftStopped | deploy/scripts/backup-volumes.sh:53-58 | That run is one of the volume script, and the service is grafana |
| BackupGuarantees.TierAfterRun | deploy/scripts/backup-postgres.sh:45-60 | After a completed run a tier holds every promoted day of the last N days and at most one day more |
| BackupGuarantees.RetentionInDays | deploy/scripts/backup-postgres.sh:45-60 | In days: the last 7, the Sundays of the last 28, the first Sundays of the last 180, and nothing more than a day older |
| BackupGuarantees.RetentionBounds | deploy/scripts/backup-postgres.sh:57-60 | With a completed run every day of a tier's span, none of them past midnight, 8-9 daily, 4-5 weekly and 5-7 monthly archives of each name remain |
| BackupGuarantees.OneMonthlyPerMonth | deploy/scripts/backup-postgres.sh:50-55 | Exactly one monthly archive per calendar month, from its first Sunday's run until it expires |
| BackupMetrics.Collector.Emit | deploy/scripts/backup-metrics.sh:57-96 | The new file is printed from this run or from what the old file carried |
| BackupMetrics.SampleValue | deploy/scripts/backup-metrics.sh:65-66 | The second field of a printed sample is its value when the name has no blank |
| BackupMetrics.LastRunReported | deploy/scripts/backup-metrics.sh:51-55 | Whatever came before, the file reports the time of the latest run, and 1 exactly if it succeeded, else 0 |
| BackupMetrics.CarriedForward | deploy/scripts/backup-metrics.sh:57-98 | For every sequence of runs the file carries time and bytes of the latest success, and neither line exactly when no run has succeeded |
| BackupMetrics.NameDecides | deploy/scripts/backup-metrics.sh:65-66 | That holds for all runs if and only if the name has no blank |
| BackupMetrics.ScriptIsSeparate | deploy/scripts/backup-metrics.sh:72-90 | The script's own texts are never confused when read back |
| Color.ToHslDescribes | api/internal/service/color.go:68-88 | The divisor is not zero, and what lightness, saturation and hue mean without a division |
| Color.Ranges | api/internal/service/color.go:48-90 | Hue in [0, 1), saturation and lightness in [0, 1], for all channels in [0, 1] |
| Color.Greys | api/internal/service/color.go:69-71 | A grey has hue and saturation zero, and only a grey has saturation zero |
| Color.DegreesInRange | api/internal/service/color.go:90 | The returned integers are below 360 and at most 100 |
| Color.RoundTrip | api/internal/service/color.go:48-88 | The conversion of section 7 of CSS Color Module Level 4 gives back exactly the channels |
| Color.TruncatedRoundTrip | api/internal/service/color.go:90 | For all real channels in [0, 1], from the truncated integers each channel is within 11/255 |
| Color.RealChannelsNeedEleven | api/internal/service/color.go:90 | For some real channels, which are no inputs of the function, it is not within 10/255 |
| ColorIntegers.RecoveredWithinTen | api/internal/service/color.go:48-90 | For all integer channels from 0 to 255, each channel is within 10/255 |
| ColorIntegers.NotWithinNine | api/internal/service/color.go:48-90 | The colour (5, 244, 240) gives (178, 95, 48), from which blue is more than 9/255 too small |
| DocAnchors.CollectAnchors | scripts/check-doc-links.py:52-78 | The loop collects exactly the anchors of the headings outside fences, each numbered by its earlier repeats |
| DocAnchors.IterLinks | scripts/check-doc-links.py:81-91 | Exactly the links outside fences, in order, with their line numbers |
| DocAnchors.InFenceIff | scripts/check-doc-links.py:59-63 | A line is inside fences exactly if a fence opened before it and none has come since |
| DocAnchors.BasesCount | scripts/check-doc-links.py:65-71 | Every heading outside fences counts as often as it is there, unless nothing of it survives |
| DocAnchors.DecimalReadsBack | scripts/check-doc-links.py:76 | The text of a number stands for that number |
| DocAnchors.AnchorsAreRepeats | scripts/check-doc-links.py:73-76 | An anchor is a base or a base with the number of one of its repeats, and every repeat k has suffix -k |
| DocAnchors.AnchorsDistinctIff | scripts/check-doc-links.py:53 | Every heading has an anchor of its own if and only if none is called like a numbered repeat |
| DocAnchors.SharedAnchor | scripts/check-doc-links.py:73-76 | The headings a, a and a-1 share an anchor |
| DocAnchors.LinksAreVisible | scripts/check-doc-links.py:81-91 | A link is reported exactly if its line is no fence and every fence before it is closed |
| DocLinks.FilePart | scripts/check-doc-links.py:119 | The part of a target before its first '#' |
| DocLinks.Divided | scripts/check-doc-links.py:119 | The first '#' divides a target into file and fragment |
| DocLinks.SkippedTargets | scripts/check-doc-links.py:116-117 | Exactly the targets that begin with http://, https:// or mailto: are skipped |
| DocLinks.FailureMeans | scripts/check-doc-links.py:115-148 | Case by case what is reported as a missing file, as a missing heading, or raises an exception |
| DocLinks.RuleMeans | scripts/check-doc-links.py:162-167 | A fragment, without its hashes, must be a heading of the runbook, or its line is reported |
| DocLinks.FailuresFollow | scripts/check-doc-links.py:109-182 | Failures are reported in the order in which they are met |
| DocLinks.CheckLink | scripts/check-doc-links.py:115-148 | The verdict on one link is the one a fresh collection would give, and the cache still agrees with fresh collections |
| DocLinks.CheckRunbook | scripts/check-doc-links.py:150-167 | The runbook fragments are checked against the runbook's anchors, cached or not |
| DocLinks.Check | scripts/check-doc-links.py:105-183 | Every failure in order; the exit code is 0 if and only if every file is readable and every link and fragment resolves |
| DocLinks.SucceedsIffSound | scripts/check-doc-links.py:105-183 | No failure among the verdicts exactly when the documentation is sound, link by link |

## Left out

- Requests let through when Redis fails (`api/internal/middleware/ratelimit.go:82-84`): the window bounds count what the limiter admits.
- Redis, Postgres, SMTP, systemd, Docker and the shell utilities themselves: only the meaning of the commands used, one atomic step each.
- SHA-256, token and key generation: fresh, collision-free values of 64 characters.
- The prefix `rate:` of Redis keys: kept in `RedisScript`, dropped in the runs and in the agreement, where both backends are given the same key.
- Instants between milliseconds on Redis: the agreement is about a millisecond clock.
- `extractIP`, `validateEmail`, display names, key prefixes, the sending of emails, JSON bodies and request decoding.
- The random generators and the string formatting of colours.
- MemoryRateLimiter.WindowEntry.Append: the array doubles when it is full; Go's growth policy is different and not observable.
- The goroutine and ticker that call the cleanup: a cleanup may happen at any moment.
- AuthStore.Store.CreateToken: the test store keys its tokens by hash and would replace an equal one; the model appends a row, and the hashes of generated tokens are fresh.
- AuthStore.Store.MarkClientVerified: a lookup on the test store returns the row itself by reference; the model returns a copy, which the handlers do not keep across a statement.
- AuthProtocol.ApplyKeepsInv: a statement that takes effect but reports an error is a step followed by a stop.
- Local time zones and daylight saving: days are of 86400 seconds.
- BackupGuarantees.RetentionBounds: counts when no run of the tier's span went past midnight; what happened before that span does not matter, and the safety results need neither.
- BackupGuarantees.StoppedServicesAreStarted: it says nothing about a run that is killed, which runs no trap, nor about a stop command that fails after it has stopped the service, which the script does not record.
- `mkdir -p`, messages and the archive contents: a file is complete or not, and accepted by gzip or not.
- Archives whose names match the patterns of find but were not made by the scripts.
- A metrics file cut short by a full disk, and the usage and missing-directory exits of the metrics script.
- Color.RoundTrip: over the reals; the rounding of 64-bit floats is not modelled.
- Regular expressions of the link checker: which lines are fences and headings, the base anchor of a heading, the targets of a line and the runbook fragment of a rules line are given.
- The counts that the link checker prints, `--verbose`, and its suggestions.
- How a relative path resolves, and symbolic links: a function of the file and the target.
