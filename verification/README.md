# Verification of wapgo's time-dependent core

A Dafny model of the parts of wapgo whose correctness depends on time and on interleaving:
the session protocol of the auth use case, the three stores with deadlines it and the rate
limiter live on, the shared AMQP connection, and two string algorithms of the code generator.
`dafny verify dfyconfig.toml` checks everything.

## How it is laid out

| module | what it is |
|---|---|
| `Ttl` | entries with a deadline |
| `Cache`, `CacheInterleaved` | the in-process cache: the class, its refinement of a map that never forgets, and the same cache with reads split into steps and any number of goroutines |
| `Blacklist`, `BlacklistInterleaved` | the in-process token blacklist: the class, and Logouts and checks in any order with every clock reading a separate step |
| `RateLimit`, `RedisLimit` | the fixed-window limiter in memory and in Redis |
| `Tokens` | signing, verifying and admitting tokens |
| `AuthSpec`, `AuthUseCase` | the session protocol as a state machine, and the use case class that implements it on the bounded cache and blacklist |
| `AuthInvariant`, `AuthRuns`, `AuthAnswers`, `AuthReset`, `AuthChains` | what holds in every serial run: which requests succeed and what they answer, revocation, password resets, rotation chains |
| `AuthInterleaved`, `AuthShapes`, `AuthDrive`, `AuthSolo` | the protocol with every store access a separate step and any number of requests in flight, what each step keeps, how to continue a run, and that a request running alone is served as in the serial protocol |
| `AuthConcurrent`, `AuthTickets`, `AuthCounter`, `AuthStraddle` | what follows for sessions, reset tickets and the version counter: what survives any interleaving, and exactly what does not |
| `AuthExamples` | the user and configuration of the example runs |
| `Amqp` | the double-checked reconnect |
| `Names`, `Scaffold` | name spellings, and module-path replacement |

The classes hold the fields their Go counterparts hold (`Amqp.Connection` with a `Broker` for
the other end of the link) and are proved against specification functions; the theorems are
lemmas about those functions over every sequence of calls or every interleaving. `Cacher` and `MemoryBlacklist` also carry, as specification only, the map a store
without memory bounds would hold (`ideal`); the use case is proved to do what `AuthSpec` says in
terms of that map, and serving requests one after another to be a run of `AuthSpec`
(`AuthUseCase.AuthUseCase.Serve`), so the theorems about the protocol hold whatever has been swept.

## What the proofs rest on

- Clocks do not run backwards in the order in which a store's lock is taken. Every store access
  reads the clock as often as the code does; of the requests of the serial protocol, Logout reads it
  as often as the code does and the others once.
- Randomly drawn names (token ids, reset tickets) are new each time.
- A token under the service's own key is one the service handed out.
- bcrypt matches a hash with exactly the password it was made from; JSON encoding loses nothing;
  the database keeps emails unique.
- Redis runs a script as one step, has a millisecond clock, and drops a key at its deadline.

## What the code does not do

These are properties one might expect, with the condition under which they hold.

- A password reset does not always end the sessions opened before it, even in serial runs. The
  version counter lives 90 days and starts over at 1. A reset ends a session for good if and only if
  the token is dead or spent, or the counter the reset found is not below the one the session
  recorded and the counter it leaves outlives the token, which it does when refresh tokens live at
  most 90 days (`AuthReset.ResetInvalidatesIff`, `AuthReset.NinetyDaysSuffice`; a session that
  survives is `AuthReset.SessionSurvivesReset`).
- With requests in flight, no later Refresh of a stored session gets past the counter before an
  instant, however things go on, if and only if the counter is above the session's version and lives
  that long, no stale read stands to delete it, and no other reset is about to store a counter that is
  too low or shorter-lived (`AuthCounter.LaterOnesKeptOutIff`; `AuthCounter.KeptOutIff` for a Refresh
  already there). So a login that overlaps a reset can outlive it: where nothing else touches the
  counter, exactly when it reads the counter after the reset has stored it
  (`AuthCounter.LoginRecordsIff`, `AuthStraddle.LoginStraddlesReset`). And a stale read can undo a
  reset for logins that ended before it (`AuthStraddle.StaleReadUndoesReset`).
- A refresh token is single-use, and so is a reset ticket, only for requests that do not overlap: two
  that both succeed each read the entry before the other deleted it (`AuthConcurrent.BothPairsOverlap`,
  `AuthTickets.BothSucceedOverlap`). Two Refreshes that have read the session and not deleted it can
  still both get a pair if and only if neither holds a dead copy or has been refused by the version
  counter (`AuthConcurrent.BothCanPairIff`). Two resets that have found their ticket and not deleted it
  can still both succeed if and only if neither holds a dead copy or has a password too long for
  bcrypt (`AuthTickets.BothCanSucceedIff`).
- The cache can lose a live value: a read that saw an earlier value dead deletes the key without
  looking again. A live value can be lost before its next Set or Del if and only if a reader is about
  to delete the key, or holds a copy that dies before it (`CacheInterleaved.NeverLostIff`).
- A request that has verified its token gets past the blacklist if and only if no Logout has written
  an entry for the token, or the deadline the last of them gave it has passed when the request looks.
  That deadline is never before the token's end, and may fall between the two readings of one request
  (`BlacklistInterleaved.AdmittedIffOutlived`, `BlacklistInterleaved.OutlivedIsAdmitted`).
- The comment on `refreshSession` says the version must match the user's; the code also accepts
  a higher one (`AuthReset.HigherVersionAccepted`), and the model follows the code.
- `expires_in` is the life of the access token, whatever the clock reads, if and only if the expiry
  is a whole number of seconds and not 0 (`AuthSpec.ExpiresInIff`); 0 lives 24 hours.
- Two namespaces can share a name if and only if one, with its colon, begins the other with its own
  (`Cache.NamespacesMeetIff`).
- toSnake does not recover PascalCase words of a single letter (`Names.PascalToSnake`).
- Scaffold and AddFeatureFiles write the same plain file, for the names modules have, if and only if
  it contains no sentinel, nor the start of one before a skeleton path (`Scaffold.RenderAlikeIff`).
- The Redis and memory limiters agree if and only if the window is a whole number of milliseconds
  (`RedisLimit.RedisIsMemory`).

## Model

| member | source | states |
|---|---|---|
| `Cache.Cacher.Set` | internal/repository/memory/cache.go:48-65 | a value that does not marshal changes nothing; otherwise the ideal map gains the stamped entry, and the table ends within 1024 entries or free of dead ones |
| `Cache.Cacher.SweepLocked` | internal/repository/memory/cache.go:120-127 | whatever the order of the map walk, exactly the live entries remain |
| `Cache.Cacher.Get` | internal/repository/memory/cache.go:69-88 | answers hit, miss or decoding failure as the never-forgetting map does; an entry is dropped if and only if it is dead |
| `Cache.Cacher.Del` | internal/repository/memory/cache.go:91-98 | removes exactly the given keys under the namespace |
| `Cache.Cacher.Exists` | internal/repository/memory/cache.go:101-117 | true exactly when the never-forgetting map has a live entry |
| `Cache.PrefixedInjective` | internal/repository/memory/cache.go:40-45 | two keys never share a prefixed name, for any namespace |
| `Cache.NamespacesMeetIff` | internal/repository/memory/cache.go:40-45 | two namespaces can share a name if and only if one, with its colon, begins the other with its own; different ones without colons never do |
| `Cache.SerialRefinement` | internal/repository/memory/cache.go:40-127 | every sequence of Set, Get, Del and Exists gets the answers of an unbounded map, from any related pair of states |
| `Cache.FreshCacheIsIdeal` | internal/repository/memory/cache.go:36-38 | so does a new cache with any namespace |
| `Cache.ReadBack` | internal/repository/memory/cache.go:47-88 | a value is read back until its TTL has passed (for ever if the TTL is not positive), whatever happens to other keys meanwhile |
| `CacheInterleaved.HitIsLastSet` | internal/repository/memory/cache.go:69-88 | under any interleaving a hit returns the last Set before its read step, not deleted by then and still unexpired |
| `CacheInterleaved.HitIffStillLive` | internal/repository/memory/cache.go:69-88 | a read that found an entry answers it if and only if the entry is still live at the check, and then as the ideal map at its read step |
| `CacheInterleaved.AlwaysContained` | internal/repository/memory/cache.go:48-127 | under any interleaving the table is contained in the ideal map |
| `CacheInterleaved.QuietKeyNeverLost` | internal/repository/memory/cache.go:72-83 | a key no Set of which falls inside a read of it never loses a live value |
| `CacheInterleaved.NeverLostIff` | internal/repository/memory/cache.go:69-88 | in every reachable state, a live stored value survives every continuation up to its next Set or Del if and only if no reader is about to delete the key or holds a copy that dies before it |
| `CacheInterleaved.SetOnceNeverLost` | internal/repository/memory/cache.go:72-83 | no interleaving loses a live value of a key set at most once |
| `CacheInterleaved.LiveValueLost` | internal/repository/memory/cache.go:78-82 | a run in which the unchecked delete of a stale read removes a live value |
| `Blacklist.MemoryBlacklist.Revoke` | pkg/auth/memory_blacklist.go:30-47 | refuses the empty id, records now + ttl, and with a positive ttl leaves at most 1024 entries or only live ones |
| `Blacklist.MemoryBlacklist.IsRevoked` | pkg/auth/memory_blacklist.go:50-66 | answers as if nothing had ever been swept or pruned |
| `BlacklistInterleaved.AlwaysInv` | pkg/auth/memory_blacklist.go:30-66 | under any interleaving of Logouts, sweeps and checks, with readings taken before the lock, no entry ends before its token, and a token whose Logout is done has an entry or is dead |
| `BlacklistInterleaved.RevokedStaysRevoked` | internal/usecase/auth_usecase.go:183-196 | once a Logout has ended, a request that looks at the blacklist within the token's life is refused |
| `BlacklistInterleaved.TableHasDeadline` | pkg/auth/memory_blacklist.go:30-66 | under any interleaving, whatever was swept and pruned, the table has the deadline the last Logout's steps gave a token as long as it lies ahead, and never another |
| `BlacklistInterleaved.AdmittedIffOutlived` | pkg/auth/middleware.go:16-46 | a request with a verified token is let through if and only if no Logout's steps gave the token a deadline or the last one has passed; no deadline is before the token's end, and a token whose Logout has ended has one or is dead |
| `BlacklistInterleaved.OutlivedIsAdmitted` | pkg/auth/middleware.go:16-46 | a run in which a request that verified before the end and looks after it is let through |
| `RateLimit.MemoryLimiter.Allow` | pkg/ratelimit/memory.go:46-68 | sweeps, counts and judges the call, and leaves at most 4096 windows or only open ones |
| `RateLimit.MemoryLimiter.SweepLocked` | pkg/ratelimit/memory.go:71-77 | exactly the open windows remain |
| `RateLimit.SweepTransparent` | pkg/ratelimit/memory.go:52-54 | in every run each answer is that of a limiter that never sweeps |
| `RateLimit.AnswerIsRank` | pkg/ratelimit/memory.go:56-67 | within a window, told from the calls alone, exactly the first max calls are allowed, Remaining falls from max - 1 to 0, and a refused call is told the rest of the window |
| `RateLimit.RetryAfterHonoured` | pkg/ratelimit/memory.go:63-65 | RetryAfter is positive and at most a window, and the key's first call at or after it is allowed with a whole quota |
| `RateLimit.SlidingBound` | pkg/ratelimit/memory.go:46-68 | any stretch as long as a window sees at most 2 * max - 1 allowed calls of a key |
| `RateLimit.SlidingBoundReached` | pkg/ratelimit/memory.go:46-68 | that bound is attained for every quota and every window of two ticks or more |
| `RedisLimit.RedisStore.IncrWindow` | pkg/ratelimit/redis.go:13-19 | the script counts, opens a window on the first hit, and reports the time left |
| `RedisLimit.RedisLimiter.Allow` | pkg/ratelimit/redis.go:47-69 | the reply is judged against max, with the window as fallback for RetryAfter |
| `RedisLimit.RedisAnswersAlike` | pkg/ratelimit/redis.go:46-69 | on a millisecond clock and a window of whole milliseconds, replicas in any order answer as one MemoryLimiter, RetryAfter included |
| `RedisLimit.RedisIsMemory` | pkg/ratelimit/redis.go:46-69 | the two limiters agree in every run if and only if the window is a whole number of milliseconds |
| `Tokens.Sign` | pkg/auth/jwt.go:29-58 | a token is signed unless the secret is shorter than 32, carries the id, subject and type asked for, is dated to whole seconds, and verifies exactly from its nbf to its exp |
| `Tokens.Middleware` | pkg/auth/middleware.go:16-46 | decides as Admitted does, by the blacklist as if it never forgot; `AuthAnswers.AdmittedIff` says which bearers that lets through |
| `AuthAnswers.AdmittedIff` | pkg/auth/middleware.go:16-46 | of all bearers, none and forged ones included, exactly those are let through that the service handed out as access tokens, are within their life, and no successful Logout took; every other is unauthorized |
| `AuthAnswers.TypeDecides` | pkg/auth/middleware.go:26-31 | a token without a type passes as an access token, and any type but access is refused |
| `AuthAnswers.LoginSucceedsIff` | internal/usecase/auth_usecase.go:120-134 | a Login returns a pair if and only if somebody has this address and this password, and then for that user; any other gets ErrInvalidCredentials and changes nothing |
| `AuthAnswers.WeakSecretIssuesNothing` | pkg/auth/jwt.go:30-32 | with a secret shorter than 32 no pair is ever handed out and no bearer let through |
| `AuthAnswers.PairIs` | internal/usecase/auth_usecase.go:276-304 | in every run a pair is an access and a refresh token of one subject, each signed with the configured key, issuer and audience and verifying from the second of the request for its own configured lifetime; expires_in is the access token's; the session is stored for the refresh lifetime with the live counter |
| `AuthAnswers.LogoutAnswers` | internal/usecase/auth_usecase.go:183-188 | a Logout succeeds if and only if its access argument was handed out and is within its life; any other gets ErrInvalidToken and changes nothing |
| `AuthAnswers.ForgotAnswers` | internal/usecase/auth_usecase.go:216-233 | a ticket is issued if and only if somebody has the address; otherwise nothing changes |
| `AuthAnswers.ResetAnswers` | internal/usecase/auth_usecase.go:236-254 | a reset gets ErrInvalidToken if and only if its ticket was not issued, has expired or was used; with a good one it succeeds, or fails for want of a user or for a password too long |
| `AuthRuns.RevocationIsPermanent` | internal/usecase/auth_usecase.go:183-196 | after a successful Logout, whose further clock readings may fall later, its access token is refused at every later time |
| `AuthUseCase.AuthUseCase.Login` | internal/usecase/auth_usecase.go:120-134 | on the bounded stores, does what the protocol's Login step says, which `AuthAnswers.LoginSucceedsIff` characterises |
| `AuthUseCase.AuthUseCase.IssueTokenPair` | internal/usecase/auth_usecase.go:276-304 | on the bounded stores, issues the pair the protocol issues, which `AuthAnswers.PairIs` characterises |
| `AuthUseCase.AuthUseCase.Refresh` | internal/usecase/auth_usecase.go:137-180 | does what the Refresh step says, every branch included |
| `AuthUseCase.AuthUseCase.Logout` | internal/usecase/auth_usecase.go:183-212 | does what the Logout step says |
| `AuthUseCase.AuthUseCase.RevokeClaims` | internal/usecase/auth_usecase.go:189-196 | revokes an id exactly for what remains of its token's life |
| `AuthUseCase.AuthUseCase.ForgotPassword` | internal/usecase/auth_usecase.go:216-233 | stores a ticket for 15 minutes, or reports no account without an error |
| `AuthUseCase.AuthUseCase.ResetPassword` | internal/usecase/auth_usecase.go:236-272 | does what the ResetPassword step says, every branch included |
| `AuthUseCase.AuthUseCase.Serve` | internal/usecase/auth_usecase.go:120-304 | serving requests one after another on the bounded stores is a run of the protocol, so what is proved of runs holds of the service |
| `AuthSpec.ExpiresInIff` | internal/usecase/auth_usecase.go:299-303 | the reported expires_in is the access token's life, whatever the clock reads, if and only if the expiry is a whole number of seconds other than 0 |
| `AuthInvariant.KeyFacts` | internal/usecase/auth_usecase.go:66-72 | the refresh, reset and version keys never collide, and each names one thing |
| `AuthInvariant.StepKeepsInv` | internal/usecase/auth_usecase.go:120-304 | every request keeps the session-store invariant |
| `AuthRuns.SessionNamesOneToken` | internal/usecase/auth_usecase.go:276-297 | in every reachable state a session key is the id of exactly one issued token, a refresh token of the same subject that does not outlive the entry |
| `AuthRuns.IssuedFacts` | pkg/auth/jwt.go:74-99 | an issued refresh token verifies exactly before its exp, and its session records the version counter at issue |
| `AuthRuns.SessionFate` | internal/usecase/auth_usecase.go:143-168 | while its token is within its life a session is stored, unchanged, exactly until a Refresh or a successful Logout takes it |
| `AuthRuns.RefreshSucceedsIff` | internal/usecase/auth_usecase.go:137-180 | Refresh of an issued refresh token returns a pair if and only if it is within its life, was not taken before, its user exists and its recorded version is not below the live counter; otherwise ErrInvalidToken |
| `AuthRuns.OnlyRefreshTokensRefresh` | internal/usecase/auth_usecase.go:137-155 | a pair from Refresh means the token was handed out earlier as a refresh token, so an access token never refreshes |
| `AuthRuns.RefreshBranchesUnreachable` | internal/usecase/auth_usecase.go:145-155 | the decoding failure and the subject mismatch never occur |
| `AuthReset.ResetSucceedsIff` | internal/usecase/auth_usecase.go:236-272 | a ticket resets a password if and only if it is presented within 15 minutes, for the first time, with a password bcrypt accepts, while someone holds its address; that user's password changes and nobody else's |
| `AuthReset.ResetOnceAndInTime` | internal/usecase/auth_usecase.go:216-262 | every successful reset used a ticket issued less than 15 minutes before, which no other reset uses |
| `AuthReset.CounterStep` | internal/usecase/auth_usecase.go:264-269 | a version counter moves only by a reset of its own user, by one, and then lives 90 days |
| `AuthReset.CounterHolds` | internal/usecase/auth_usecase.go:264-269 | for 90 days after a reset the counter stays above what it was before |
| `AuthReset.ResetInvalidates` | internal/usecase/auth_usecase.go:157-165 | a reset refuses for good every earlier session whose recorded version the counter had not lost and whose token dies before the new counter |
| `AuthReset.NinetyDaysSuffice` | internal/usecase/auth_usecase.go:71 | refresh tokens that live at most 90 days die before the counter of any later reset |
| `AuthReset.ResetInvalidatesIff` | internal/usecase/auth_usecase.go:157-165 | for every setup: right after a reset, every continuation, with or without further resets, refuses a token issued before it if and only if the token is dead or spent, or its version is not above the counter the reset found and it dies before the counter the reset left |
| `AuthReset.NoCounterAtIssue` | internal/usecase/auth_usecase.go:288-292 | the condition holds when the user had no counter at issue |
| `AuthReset.CounterRisesWhileLive` | internal/usecase/auth_usecase.go:264-269 | and when the counter stayed live from issue to reset |
| `AuthReset.SessionSurvivesReset` | internal/usecase/auth_usecase.go:264-269 | a run in which a session outlives a reset because the counter had expired |
| `AuthReset.HigherVersionAccepted` | internal/usecase/auth_usecase.go:157-165 | a run in which a session that recorded a version above the live counter refreshes |
| `AuthChains.OneSessionPerChain` | internal/usecase/auth_usecase.go:167-179 | in every reachable state each login's chain of rotated tokens has at most one session |
| `AuthChains.RefreshConservesSessions` | internal/usecase/auth_usecase.go:157-180 | a successful Refresh swaps one live session for another: its subject's count and everyone else's sessions stay as they were |
| `AuthInterleaved.AlwaysInv` | internal/usecase/auth_usecase.go:137-304 | under any interleaving: stored sessions are of released tokens and never deleted before, and a released refresh token within its life has its session stored or deleted |
| `AuthSolo.AloneIsSerial` | internal/usecase/auth_usecase.go:120-304 | in every reachable state of the interleaved model, a request that arrives and runs with nothing in between answers and changes exactly what the serial protocol says, every branch included |
| `AuthConcurrent.ReadAfterDelFails` | internal/usecase/auth_usecase.go:143-151 | once a Del of a session has run, a Refresh whose read comes later ends in ErrInvalidToken |
| `AuthConcurrent.SpentIsSpent` | internal/usecase/auth_usecase.go:143-209 | a Refresh that starts after a successful Refresh or Logout of its token can end only in ErrInvalidToken |
| `AuthConcurrent.MissMeansSpentOrExpired` | internal/usecase/auth_usecase.go:146-151 | a Refresh misses its session only if it was deleted or the token has expired: no interleaving of stale reads and sweeps loses one |
| `AuthConcurrent.SessionReadIsOwn` | internal/usecase/auth_usecase.go:144-155 | the session a Refresh reads belongs to its own token, a released refresh token |
| `AuthConcurrent.BothPairsOverlap` | internal/usecase/auth_usecase.go:143-168 | when two Refreshes of one token both get a pair, each reads the session before the other deletes it |
| `AuthConcurrent.BothCanPairIff` | internal/usecase/auth_usecase.go:143-180 | in every reachable state in which two Refreshes of a token have read its session and neither has deleted it, a continuation gives both a pair if and only if neither holds or is evicting a dead copy or has been refused by the counter |
| `AuthConcurrent.TwoRefreshesCanBothSucceed` | internal/usecase/auth_usecase.go:143-168 | a run in which two Refreshes of one token both get a pair |
| `AuthTickets.UsedUpFails` | internal/usecase/auth_usecase.go:236-245 | under any interleaving, a reset that reads its ticket after a Del of it ends in ErrInvalidToken |
| `AuthTickets.BothSucceedOverlap` | internal/usecase/auth_usecase.go:236-262 | when two resets succeed with one ticket, each reads it before the other deletes it |
| `AuthTickets.BothCanSucceedIff` | internal/usecase/auth_usecase.go:236-271 | in every reachable state in which two resets have found a ticket and neither has deleted it, a continuation lets both succeed if and only if neither holds or is evicting a dead copy or has too long a password |
| `AuthTickets.TwoResetsCanBothSucceed` | internal/usecase/auth_usecase.go:236-262 | a run in which two resets succeed with one ticket |
| `AuthTickets.SucceedsInTime` | internal/usecase/auth_usecase.go:216-244 | under any interleaving, a reset that succeeds looked at its ticket strictly less than 15 minutes after the ForgotPassword that stored it took the time |
| `AuthCounter.LaterOnesKeptOutIff` | internal/usecase/auth_usecase.go:137-168 | in every reachable state with a token's session stored and live and the token verifying, and for every instant, no Refresh of it that arrives later gets past the counter before that instant, in any continuation, if and only if the counter is above the session's version and lives that long, and no request under way stands to delete it or to store one that does not |
| `AuthCounter.KeptOutIff` | internal/usecase/auth_usecase.go:157-168 | the same for a Refresh already about to read the counter |
| `AuthCounter.ShieldHolds` | internal/usecase/auth_usecase.go:264-269 | a counter so shielded stays so up to that instant, whatever requests arrive |
| `AuthCounter.ResetShieldsIff` | internal/usecase/auth_usecase.go:264-269 | right after a reset has stored its counter c, version v is kept out for its 90 days if and only if v < c and no other request under way threatens it |
| `AuthCounter.RefreshPassesIff` | internal/usecase/auth_usecase.go:157-168 | a Refresh that reads the counter a reset stored, before another step touches it, goes on if and only if its session recorded that version or a higher one |
| `AuthCounter.LoginRecordsIff` | internal/usecase/auth_usecase.go:288-297 | where nothing else touches the counter, a login that reads it after a reset has read it records a version that passes the reset's if and only if it reads after the reset has stored |
| `AuthStraddle.LoginStraddlesReset` | internal/usecase/auth_usecase.go:120-304 | for every user and setup, a run in which a login let in by the old password outlives a reset that ended before it signed, and its token refreshes afterwards |
| `AuthStraddle.StaleReadUndoesReset` | internal/repository/memory/cache.go:72-83 | for every user and setup, a run in which a stale read deletes a reset's counter, and the token of a login that ended before the reset began refreshes |
| `Amqp.NewConnection` | pkg/messaging/rabbitmq/connection.go:31-37 | a Connection is handed out exactly when its first dial gets through, with that one link open |
| `Amqp.Connection.Dial` | pkg/messaging/rabbitmq/connection.go:110-122 | called with nothing open, it leaves exactly the new link open and current, or changes nothing |
| `Amqp.Connection.Reconnect` | pkg/messaging/rabbitmq/connection.go:99-108 | succeeds exactly when it leaves a link open, the current one and no other; an open link is kept, and one is dialed only when none is |
| `Amqp.Connection.Close` | pkg/messaging/rabbitmq/connection.go:80-87 | leaves nothing open |
| `Amqp.Connection.IsClosed` | pkg/messaging/rabbitmq/connection.go:71-75 | looking at the current link tells whether any link at all is open |
| `Amqp.SectionIsReconnect` | pkg/messaging/rabbitmq/connection.go:99-108 | the steps of the concurrent model from check to unlocking, with nothing between, do what Reconnect does |
| `Amqp.SingleLiveConnection` | pkg/messaging/rabbitmq/connection.go:42-122 | under any interleaving of callers, Close and drops, every dialed connection but the current one is closed, and dials are at most one more than deaths |
| `Amqp.DialsOnlyWhenAllDead` | pkg/messaging/rabbitmq/connection.go:99-108 | a dial happens only when no connection is open, and leaves exactly the new one open |
| `Amqp.ChannelsAreOnTheCurrentConnection` | pkg/messaging/rabbitmq/connection.go:42-68 | Channel never uses a nil connection, and a channel it returns was opened on the current, live one |
| `Amqp.GivesUpOnlyAfterTrying` | pkg/messaging/rabbitmq/connection.go:42-68 | in every interleaving, Channel returns an error only after a dial of its own has failed, or after it could open no channel, reconnected, and could open none again |
| `Amqp.ChannelAloneSucceeds` | pkg/messaging/rabbitmq/connection.go:42-68 | in every reachable state with the lock free, a Channel call with nothing in between and a willing broker returns a channel on the current open link, dialing exactly once if nothing was open and not at all otherwise |
| `Amqp.CloseCloses` | pkg/messaging/rabbitmq/connection.go:80-87 | in every interleaving, a Close that has returned left nothing open at a step of its own |
| `Amqp.LockExcludes` | pkg/messaging/rabbitmq/connection.go:99-108 | two goroutines are never both inside a critical section |
| `Names.ToSnake` | cli/generator/names.go:36-52 | the loop writes what Snake says, which the lemmas below characterise |
| `Names.ToPascal` | cli/generator/names.go:55-66 | the loop writes what Pascal says |
| `Names.NewNames` | cli/generator/names.go:23-33 | all spellings are derived from the snake form |
| `Names.SnakeIdempotent` | cli/generator/names.go:36-52 | toSnake is idempotent on every ASCII input |
| `Names.PascalToSnake` | cli/generator/names.go:36-52 | toSnake recovers the words of a PascalCase name if and only if no word but the last is a single letter |
| `Names.CamelToSnake` | cli/generator/names.go:36-52 | and of a camelCase name if and only if no word but the first and last is |
| `Names.SpellingsAgree` | cli/generator/names.go:21-33 | snake, kebab, Pascal and camel inputs yield the same names and table |
| `Names.SnakePascalInverse` | cli/generator/names.go:35-66 | toSnake and toPascal undo each other between these spellings |
| `Names.SnakeIgnoresBlanks` | cli/generator/names.go:36-38 | blanks around the input make no difference |
| `Names.TableByLastLetters` | cli/generator/names.go:79-93 | the plural is decided by the last two letters: -y not after a vowel becomes -ies, -s, -x, -z, -sh and -ch take -es, all others -s |
| `Names.TableOfOneLetter` | cli/generator/names.go:79-93 | and so for names of one letter or none |
| `Scaffold.TwoPhasesAreOne` | cli/generator/scaffold.go:80-87 | protecting the skeleton path and then expanding the sentinel is one leftmost replacement, for any module, when the content has no fake sentinel |
| `Scaffold.OnePassIffNoFake` | cli/generator/scaffold.go:174-176 | before the guard is stripped, the two phases are one replacement if and only if the content has no fake sentinel |
| `Scaffold.RenderAlikeIff` | cli/generator/scaffold.go:174-222 | for module names without NUL or newline, Scaffold and AddFeatureFiles write the same plain file if and only if it contains no fake sentinel, build guard included |
| `Scaffold.SameRendering` | cli/generator/scaffold.go:174-222 | Scaffold and AddFeatureFiles write the same for every NUL-free plain file |
| `Scaffold.ReplacesEveryOccurrence` | cli/generator/scaffold.go:221 | a replacement cuts the text at the occurrences, each the first after the last, and changes those and nothing between them |
| `Scaffold.GuardAndBlankLineGone` | cli/generator/scaffold.go:186-192 | a file that starts with the build guard and a blank line comes out without both, its skeleton paths replaced |
| `Scaffold.GuardGone` | cli/generator/scaffold.go:186-192 | without the blank line, only the guard goes |
| `Scaffold.UnguardedIsWhole` | cli/generator/scaffold.go:186-192 | a file without the guard loses nothing |
| `Scaffold.ScaffoldWrites` | cli/generator/scaffold.go:174-179 | Scaffold writes NUL-free plain files so, guarded or not |

## Left out

- Amqp.Connection.Reconnect: takes the dial as one step with a given outcome; the concurrent model in the same module splits it and lets the broker drop links in between (`Amqp.SectionIsReconnect` relates the two).
- Clock readings inside one serial request other than Logout: the request reads the clock once, where the code reads it before each store access; in the interleaved model every access reads its own.
- The blacklist steps of Logout are interleaved in `BlacklistInterleaved` and not in `AuthInterleaved`: blacklist and cache share nothing.
- Stale clock readings of the limiter: it reads the clock before taking its lock; calls are ordered by the lock with readings in that order.
- Errors of the database, Redis and the token library's parser, and the fail-open paths they trigger: the in-process stores have none.
- The token library's treatment of an empty issuer or audience, and parsing a token or a UUID from its text: tokens and subjects are values.
- Token id generation, HMAC, bcrypt and JSON internals.
- GORM, soft deletion and the user management use case: users change by an arbitrary save or removal.
- RequireRole, GetClaims, the Redis blacklist and the Redis cache.
- Rate-limit HTTP headers, the AMQP health probe, consumers and publishers.
- Template execution, file walking and feature selection in the generator; names outside ASCII.
- HTTP handlers, routes, configuration, observability, email, Firebase, Google sign-in, Kafka and the command-line tool.
