# A model of the token lifecycles of the authentication server

The server hands out two kinds of long-lived credentials over shared stores: OIDC refresh
tokens in Redis and browser sessions in one SQL table. Around them stand guards whose promises
are bounds over time. This project models both protocols and the guards, and proves what they
promise over every run, every interleaving and every input.

* **OIDC grants.** `refresh_store.dfy` has the Redis keys, one function per command, the store
  operations as sequences of commands, and a ledger without any index that says what each
  operation should answer; the operations refine the ledger. `refresh_token_store.dfy` is the
  same store updated in place. `grant_chains.dfy` and `grant_theorems.dfy` take the store apart
  again into single Redis commands and let any number of code exchanges, refreshes, revocations
  and expiries interleave; `grant_operations.dfy` ties the two levels together, and
  `grant_overlaps.dfy`, `grant_overlap_theorems.dfy` and `index_coverage.dfy` say what overlapping
  requests do to the indexes and what a revocation then leaves.
  `oidc_service.dfy` and `scopes.dfy` have the exchanges of one request.
* **Browser sessions.** `session_table.dfy` has every statement that writes the table.
  `session_runs.dfy` interleaves the transactions under read-committed isolation: a statement on
  many rows takes its snapshot in one step and lands in another, a rotation begins, locks, checks
  and commits. `session_theorems.dfy`, `session_cap.dfy`, `session_cap_reached.dfy` and
  `session_escapes.dfy` say what holds of every run; `session_repository.dfy` and `auth_service.dfy` are the methods
  that update the table in place.
* **Guards and engines.** `lockout.dfy`, `lockout_overlap.dfy`, `rate_limiter.dfy`, `webhook_throttle.dfy`,
  `settings_cache.dfy`, `totp_replay.dfy`, `recovery_codes.dfy`, `mfa_service.dfy`,
  `last_admin.dfy`, `last_admin_overlap.dfy`, `mail_queue.dfy` and `audit_metadata.dfy`: each has a state, its steps,
  results over all runs, and a class whose methods are tied to those steps; the two overlap files
  take the steps apart where requests can come in between.

Conventions:

* Time is in whole seconds, and one clock serves the program, Redis and the database.
* A token or code stands for its SHA-256 digest; new ones are random, so the models let a new
  name be any that was not issued before. A session row's id and token digest are one key (the
  table has a unique index on the digest).
* What one step is, a store operation, a Redis command, a part of a transaction, each file says.
* SHA-256, bcrypt, HMAC, encryption, JSON and string parsing are parameters: any function, with
  the law stated where a result needs one.

Findings:

* The repository's README.md (line 86) calls the rate limit a sliding window. The code counts in a
  fixed window: `RateLimiter.TwoSecondsSuffice` gets 2 * max - 1 requests admitted within two
  seconds, `RateLimiter.HalfOpenBound` says it is never more in one window length, and
  `RateLimiter.LimitHoldsExactly` says from which states of the key the limit does hold.
* A reuse response does not always end the family. `OverlapTheorems.ReuseEndsFamily` says exactly
  when it does, over every interleaving of single commands: no exchange may be between consuming
  and saving, and the family's index must list every live token of the family.
  `OverlapTheorems.UnlistedExactly` says when an index misses one; Save's five commands are a
  pipeline, not a transaction, and `IndexCoverage.ReuseDuringSave` is a run that goes wrong.
* In the same way a mass revocation misses what the user's index does not list:
  `OverlapTheorems.RevokeUserLeaves`, with the run `IndexCoverage.RevocationDuringSave`; and
  `IndexCoverage.IndexesComplete` says under which condition on a run nothing is missed.
* Overlapping guesses get past the lock between check and record:
  `LockoutOverlap.OverlappingGuessesTakeTime` bounds by how much, and
  `LockoutOverlap.OverlapIsReached` comes within a constant of that bound.
* Two overlapping transactions can demote the last two admins (`LastAdminOverlap.TwoGuardsPass`);
  `LastAdminOverlap.OverlapLeavesAnAdmin` says exactly when overlapping updates leave one.
* The session cap can be overshot by overlapping logins, and by a single login whose eviction
  overlaps rotations: `SessionCaps.SessionCap` says by how much, `SessionCapBound.CapIsReached`
  that no smaller bound holds, and `SessionCapBound.CapOvershot` is the run with one login at a time.
* A mass revocation and a password reset miss the successor of a row whose rotation commits between
  their snapshot and their landing: `SessionEscapes.MassRevocationMisses` is the run,
  `SessionTheorems.LeavesNoneExactly` and `SessionTheorems.RevocationCuts` the exact conditions.
* The code that enabled a TOTP secret passes Validate again, and a code that Setup or Disable took
  with blanks around it passes without them: `TotpReplay.TwiceForAStep` says that nothing else does.
* The webhook throttle reads the clock before it takes its lock:
  `WebhookThrottle.PruningIsVisibleExactly` says when a late stamp dispatches too early.
* Audit metadata loses a clear field that is present and null, and nothing else:
  `AuditMetadata.RoundTrip` and `AuditMetadata.OnlyNullsAreLost`.
* A read that began before a settings update can put the old value back into the cache for up to
  a minute after it: `SettingsCache.UpdateTakesEffect` says exactly when.

## Model

| member | source | states |
|---|---|---|
| `RefreshStore.AlwaysGood` | backend/internal/oidc/refreshtoken.go:59-206 | After any sequence of saves, consumptions, deletions, user revocations and waits: the Redis keys hold exactly the tokens that an index-free ledger says are live or consumed, every live token is in its user's and its family's index, and neither index expires before it. |
| `RefreshStore.AnswersExactly` | backend/internal/oidc/refreshtoken.go:91-128 | After every run GetAndConsume gives the session of a live token, Reused for one consumed within the TTL, NotFound for anything else (never issued, deleted, mass-revoked, expired), and NotFound changes nothing. |
| `RefreshStore.ReuseEmptiesFamily` | backend/internal/oidc/refreshtoken.go:114-147 | A Reused answer leaves no live token in the family and every other live token in place (section 5.2.2.3 of RFC 6819). |
| `RefreshStore.RevokeAllIsExact` | backend/internal/oidc/refreshtoken.go:188-206 | RevokeAllForUser removes exactly the user's live tokens; family indexes, stale entries included, stay as they were. |
| `RefreshStore.SaveGood` | backend/internal/oidc/refreshtoken.go:75-88 | Saving a new token keeps keys, indexes and ledger in step. |
| `RefreshStore.ConsumeGood` | backend/internal/oidc/refreshtoken.go:91-128 | Consuming any token, live, spent or unknown, answers as the ledger does and keeps keys, indexes and ledger in step. |
| `RefreshStore.SweepGood` | backend/internal/oidc/refreshtoken.go:132-147 | Deleting every token an owner's index lists withdraws that owner's tokens and nobody else's. |
| `RefreshStore.FamilyRevocationGood` | backend/internal/oidc/refreshtoken.go:130-147 | The family revocation is the ledger's withdrawal of that family. |
| `RefreshStore.DeleteGood` | backend/internal/oidc/refreshtoken.go:166-186 | Deleting a token withdraws it only if it was live, and keeps the tie to the ledger. |
| `RefreshStore.RevokeUserGood` | backend/internal/oidc/refreshtoken.go:188-206 | The user revocation is the ledger's withdrawal of that user. |
| `RefreshStore.WaitGood` | backend/internal/oidc/refreshtoken.go:41-48 | Expiry of token keys, tombstones and indexes never breaks the tie: an index outlives the live tokens in it. |
| `RefreshStore.SaveExactly` | backend/internal/oidc/refreshtoken.go:59-88 | Key by key: the token's key set for 30 days, the token added to its user's and its family's index for 30 days, nothing else touched. |
| `RefreshStore.ConsumeExactly` | backend/internal/oidc/refreshtoken.go:91-112 | Key by key: a live token is found, goes, leaves a tombstone of 30 days and its two index entries; a token with neither key changes nothing. |
| `RefreshStore.ReuseExactly` | backend/internal/oidc/refreshtoken.go:114-147 | Key by key: every token the family's index lists goes, that index goes, and the user's index loses those tokens. |
| `RefreshStore.DeleteExactly` | backend/internal/oidc/refreshtoken.go:166-186 | Key by key: a live token goes with its two index entries and leaves no tombstone. |
| `RefreshStore.RevokeUserExactly` | backend/internal/oidc/refreshtoken.go:188-206 | Key by key: the tokens the user's index lists and that index go; tombstones and other indexes stay. |
| `RefreshStore.LedgerAnswers` | backend/internal/oidc/refreshtoken.go:91-128 | What an index-free store must answer: found within 30 days of issue, reused within 30 days of consumption, otherwise not found. |
| `RefreshStore.LedgerSteps` | backend/internal/oidc/refreshtoken.go:59-206 | What saving, presenting, deleting and withdrawing make of every single token of the ledger. |
| `RefreshTokens.RefreshTokenStore.Save` | backend/internal/oidc/refreshtoken.go:59-88 | Stores the session (with a new family if it has none) for 30 days, adds the token to both indexes and renews their expiry, and makes it live in the ledger. |
| `RefreshTokens.RefreshTokenStore.GetAndConsume` | backend/internal/oidc/refreshtoken.go:91-112 | The in-place operation answers exactly as the ledger does; on the keys, a live token is found and becomes a tombstone, a tombstone's family loses all its live tokens and no other is touched, anything else changes nothing. |
| `RefreshTokens.RefreshTokenStore.Take` | backend/internal/oidc/refreshtoken.go:91-112 | Claim, tombstone and unindexing, or the miss path, command by command. |
| `RefreshTokens.RefreshTokenStore.HandleMiss` | backend/internal/oidc/refreshtoken.go:114-128 | No tombstone: NotFound and no change; tombstone: the family is revoked and the answer is Reused. |
| `RefreshTokens.RefreshTokenStore.RevokeFamily` | backend/internal/oidc/refreshtoken.go:130-147 | Members deleted and taken from the user's index, family index deleted; nothing for an empty family name; an empty index only deletes its key. |
| `RefreshTokens.RefreshTokenStore.Peek` | backend/internal/oidc/refreshtoken.go:149-164 | Returns a session exactly for a live token, and consumes nothing. |
| `RefreshTokens.RefreshTokenStore.Delete` | backend/internal/oidc/refreshtoken.go:166-186 | A live token is withdrawn and unindexed without a tombstone; any other token changes nothing. |
| `RefreshTokens.RefreshTokenStore.RevokeAllForUser` | backend/internal/oidc/refreshtoken.go:188-206 | Afterwards a token is live if and only if it was live and belongs to another user. |
| `GrantTheorems.NeverForks` | backend/internal/oidc/refreshtoken.go:59-112 | In every interleaving of the Redis commands of concurrent exchanges, deletions, revocations and expiries, live tokens plus exchanges that consumed and have not saved number at most one per family. |
| `GrantTheorems.NoTwoChildren` | backend/internal/oidc/service.go:261-331 | No token is ever exchanged for two different successors. |
| `GrantTheorems.OneFamilyPerCode` | backend/internal/oidc/authcode.go:50-66 | An authorization code starts at most one family, however many requests present it. |
| `GrantTheorems.LineageKept` | backend/internal/oidc/service.go:221-332 | Along every family user, client, auth_time and family are those of the consent; each token's scopes are within every earlier token's, within the consented scopes, and within what the client was allowed at consent. |
| `GrantTheorems.LiveIsLatest` | backend/internal/oidc/service.go:323-332 | A live token is the last one issued in its family and carries that issue's session. |
| `GrantTheorems.OverForGood` | backend/internal/oidc/refreshtoken.go:91-147 | A started family with no live token and no exchange in flight never has either again. |
| `GrantTheorems.FlightCanLand` | backend/internal/oidc/service.go:261-332 | An exchange that has consumed its token can still finish and make a token live, whatever was revoked meanwhile. |
| `GrantTheorems.ConsentsExactly` | backend/internal/oidc/service.go:68-100 | A code is stored, for 300 seconds, exactly for scopes the client is allowed. |
| `GrantTheorems.TakesCodeExactly` | backend/internal/oidc/service.go:102-115 | Presenting a code spends it, whoever presents it; exactly the client it was issued to holds it then. |
| `GrantTheorems.FirstTokenExactly` | backend/internal/oidc/service.go:221-233 | A first refresh token, with the code's user, client, scopes and auth_time, exactly when offline_access was granted. |
| `GrantTheorems.TakesTokenExactly` | backend/internal/oidc/service.go:261-293 | Presenting a live token spends it, whoever presents it; exactly its own client goes on, with the same session but narrowed scopes. |
| `GrantTheorems.NextTokenExactly` | backend/internal/oidc/service.go:323-332 | The successor is saved for 30 days with that session, once the old token's commands are sent. |
| `GrantTheorems.PeeksExactly` | backend/internal/oidc/service.go:384-397 | A revocation goes on exactly for a live token of the calling client, and takes whatever is still live by then. |
| `OverlapTheorems.ReuseEndsFamily` | backend/internal/oidc/refreshtoken.go:114-147 | At any moment of any interleaving of single commands, after a spent token is presented its family can ever have a live token again if and only if, at that moment, one of its exchanges was between consuming and saving, or the family's index did not list one of its live tokens. |
| `OverlapTheorems.MissLeaves` | backend/internal/oidc/refreshtoken.go:114-147 | At any moment of any interleaving, presenting a spent token leaves its family exactly the live tokens its index does not list, and every other family all of its own. |
| `OverlapTheorems.LateDelLeaves` | backend/internal/oidc/refreshtoken.go:132-146 | When other requests' commands come between a response's SMEMBERS and its DEL, the family keeps exactly the tokens alive at the DEL that were not listed at the SMEMBERS, and can have a live token later if and only if there is one or an exchange is in flight then. |
| `OverlapTheorems.UnlistedExactly` | backend/internal/oidc/refreshtoken.go:75-81 | After every interleaving a live token is missing from its user's or its family's index if and only if its save has still to add it there, or that save gave up first, or a revocation that did not see it deleted the index, or the index expired with it before the save renewed it. |
| `OverlapTheorems.RevokeUserLeaves` | backend/internal/oidc/refreshtoken.go:191-206 | SMEMBERS and DEL with no command in between leave the user exactly the live tokens the user's index does not list, and everybody else all of theirs, at any moment of any interleaving. |
| `OverlapTheorems.LateUserDelExactly` | backend/internal/oidc/refreshtoken.go:191-206 | When other requests' commands come between SMEMBERS and DEL, exactly the user's tokens listed at the SMEMBERS go, and nobody else's. |
| `IndexCoverage.IndexesComplete` | backend/internal/oidc/refreshtoken.go:75-81 | When no save gives up half-way, no revocation deletes an index that has come to list a live token since it was read, and no index expires while a save is about to renew it, every live token is in both its indexes, neither expires before it, or its save has still to see to that. |
| `IndexCoverage.RevocationComplete` | backend/internal/oidc/refreshtoken.go:191-206 | After such an interleaving, with no save of the user still to add a token, a mass revocation leaves the user no live token. |
| `IndexCoverage.ReuseDuringSave` | backend/internal/oidc/refreshtoken.go:75-81 | A run in which a spent token is presented between the SET and the SADD of its successor: nothing of the family is in flight and the successor stays alive. |
| `IndexCoverage.RevocationDuringSave` | backend/internal/oidc/refreshtoken.go:191-206 | A run in which a mass revocation reads the user's index before a save's SADD and deletes it after: all requests over, the new token is alive and in no list of the user. |
| `OverlapTheorems.ReuseEndsFamilyInRuns` | backend/internal/oidc/refreshtoken.go:114-147 | When no other operation is between two of its commands, the reuse response empties the family, and only an exchange in flight can bring it back. |
| `GrantOverlaps.StepHist` | backend/internal/oidc/refreshtoken.go:59-206 | Every single command keeps what these results need: indexes list only their owner's tokens, tombstones name started families, an SREM comes after the DEL of its tokens, and a token is added to an index once. |
| `GrantOperations.CommandsRefineOperations` | backend/internal/oidc/refreshtoken.go:59-206 | A run of operations whose commands do not overlap, with exchanges left in flight between consuming and saving, leaves exactly the keys that the store operations leave. |
| `GrantOperations.MissEffect` | backend/internal/oidc/refreshtoken.go:114-147 | The commands of a miss do to the keys what handleMiss says and leave nothing else behind. |
| `GrantOperations.OpEffect` | backend/internal/oidc/refreshtoken.go:59-206 | One operation's commands, uninterrupted, have the effect of its store operation. |
| `GrantChains.StepInv` | backend/internal/oidc/refreshtoken.go:59-206 | Every single command of every operation keeps the invariant behind these results: codes held once, lines unforked, live tokens and claims at the tip of their line. |
| `GrantChains.ClaimTips` | backend/internal/oidc/refreshtoken.go:91-105 | The GETDEL that takes a live token makes the taker the family's only holder. |
| `GrantChains.GrownTips` | backend/internal/oidc/refreshtoken.go:75-83 | Saving the successor is safe because the saver is the family's only holder. |
| `GrantChains.TakeCodeInv` | backend/internal/oidc/service.go:102-115 | Taking a code, for its own client or another, keeps the invariant. |
| `Scopes.NarrowNeverWidens` | backend/internal/oidc/service.go:276-293 | Narrowed scopes are within the grant: the intersection with the request, or the whole grant exactly when that is empty. |
| `Scopes.KeptInOrder` | backend/internal/oidc/service.go:281-287 | The order of the request and its repetitions are kept: joining two requests joins what they keep. |
| `Scopes.NarrowScopes` | backend/internal/oidc/service.go:276-293 | The two loops compute that narrowing, in the order requested. |
| `OidcService.AuthCodeStore.Save` | backend/internal/oidc/authcode.go:40-48 | A saved code can be redeemed for 300 seconds. |
| `OidcService.AuthCodeStore.GetAndConsume` | backend/internal/oidc/authcode.go:50-66 | A code is handed out at most once and only before it expires; other codes are untouched. |
| `OidcService.Service.ExchangeCode` | backend/internal/oidc/service.go:102-235 | Tokens come out if and only if the code was live, for its own client and redirect URI, an active user, no wrong secret, a challenge answered, and a secret or a challenge there; the code is spent in every case, each refusal is told apart, a refusal issues nothing, and a refresh token is issued exactly when offline_access was granted, with the code's user, client, scopes and auth_time. |
| `OidcService.Service.ExchangeRefreshToken` | backend/internal/oidc/service.go:237-341 | A client that fails authentication costs nothing; then the token is spent whatever follows. Tokens come out if and only if the token is live, its client is calling and its user is active; then, on the keys, it becomes a tombstone and one successor lives, with the narrowed scopes and the same user, client, auth_time and family. A reuse leaves its family no live token. |
| `OidcService.Service.RevokeRefreshToken` | backend/internal/oidc/service.go:384-397 | Withdraws the token exactly when it is live and was issued to the calling client, and touches no other key. |
| `SessionTheorems.RevokedRowsAreFrozen` | backend/internal/session/repository.go:54-435 | Over every run, from revocation to deletion no writer, password reset included, changes a revoked row, and a deleted row never returns. |
| `SessionTheorems.OneStandingRowPerLogin` | backend/internal/session/repository.go:150-164 | At every moment a login's rotation chain has at most one unrevoked row, and all its rows carry the login's user and original expiry. |
| `SessionTheorems.AcceptedOnce` | backend/internal/session/repository.go:114-167 | No refresh token is accepted twice in any run. |
| `SessionTheorems.AcceptedInTime` | backend/internal/auth/service.go:902-933 | Every accepted refresh is checked before the login's original expiry and within the idle limit then in force of the begin of the previous one, or of the login. |
| `SessionTheorems.ReuseFoundExactly` | backend/internal/session/repository.go:198-215 | In every reachable state the reuse check finds a token if and only if it was superseded by a rotation that began at least five seconds ago and its row is not purged; it names the user who logged in, and no rotation under way holds that row. |
| `SessionTheorems.ReuseStaysFound` | backend/internal/auth/service.go:933-940 | Once found, a superseded token is found at every later moment until its row is purged, so it does not matter how long after the refusal the check comes. |
| `SessionTheorems.LandsExactly` | backend/internal/session/repository.go:220-224 | In every reachable state, when a mass revocation, a password reset or an eviction lands, its user keeps exactly the unrevoked rows inserted since its snapshot (and those an eviction spared), and nobody else loses one. |
| `SessionTheorems.LeavesNoneExactly` | backend/internal/passwdreset/repository.go:148-152 | A mass revocation or a password reset leaves no unrevoked row if and only if none of the user was inserted between its snapshot and its landing. |
| `SessionTheorems.LoginCanStand` | backend/internal/session/repository.go:114-167 | In every reachable state a login can ever have an unrevoked row again if and only if it has one. |
| `SessionTheorems.RevocationCuts` | backend/internal/session/repository.go:220-224 | After a mass revocation or a password reset a login of the user can ever have an unrevoked row again if and only if one inserted since the snapshot stands at the landing; an older login has one only if a refresh of it was accepted in between. |
| `SessionTheorems.ReuseResponse` | backend/internal/auth/service.go:935-947 | The response to a reuse, with any steps between check, snapshot and landing: the user keeps the rows inserted between snapshot and landing, and the reused token's login can stand again if and only if one of them is its own, which takes a refresh of it accepted in that interval. |
| `SessionEscapes.MassRevocationMisses` | backend/internal/session/repository.go:220-224 | A run, for mass revocation and for password reset, in which a rotation that holds the row at the snapshot commits before the landing, and the login made before goes on. |
| `SessionTheorems.OidcHalf` | backend/internal/session/repository.go:225-231 | The Redis half removes exactly the user's live OIDC refresh tokens. |
| `SessionTheorems.OidcGone` | backend/internal/session/repository.go:225-231 | The same in every state that a run of the sessions reaches. |
| `SessionCaps.SessionCap` | backend/internal/auth/service.go:865-879 | With a fixed cap, at most m logins of the user under way at once (from the snapshot of their eviction to their insertion) and at most r of the user's rotations committing during any one eviction of the user, the user never has more than cap - 1 + m + r unrevoked rows, in any interleaving. |
| `SessionCapBound.CapIsReached` | backend/internal/auth/service.go:865-879 | The bound is exact: for every cap, r and m >= 1 some such run reaches it. |
| `SessionCapBound.CapOvershot` | backend/internal/auth/service.go:865-879 | A run with one login at a time and one rotation during an eviction that ends with cap + 1 unrevoked rows. |
| `SessionTheorems.NoStaleSession` | backend/cmd/server/main.go:1407-1442 | If at every moment the latest sweep that has landed began at most g seconds ago, 90 + g < 600, no unexpired, unrevoked, never-refreshed session is older than 90 + g seconds. |
| `SessionTheorems.RotatedNeverStale` | backend/internal/session/repository.go:157-164 | No row created by a rotation is ever revoked as stale. |
| `SessionTheorems.StatementAlone` | backend/internal/session/repository.go:65-421 | A statement on many rows that lands right after its snapshot does to the table what the statement alone does. |
| `SessionTheorems.RotationAlone` | backend/internal/session/repository.go:114-167 | Begin, lock, check and commit right after each other do what the rotation alone does. |
| `SessionTheorems.ApprovesExactly` | backend/internal/auth/service.go:902-929 | In a run a refresh gets past the checks if and only if its row is there, its user is active, the row was last active within the limit and has not expired; otherwise its transaction is over. |
| `SessionTheorems.LocksExactly` | backend/internal/session/repository.go:120-139 | SELECT FOR UPDATE waits while another rotation holds the row, and then finds it if and only if it is there, unrevoked, and was unexpired when the transaction began. |
| `SessionTheorems.CommitsExactly` | backend/internal/session/repository.go:150-164 | The commit of a rotation: the old row superseded, one new row of the same user and expiry, every other row as it was. |
| `SessionTheorems.CreatesExactly` | backend/internal/session/repository.go:53-63 | The row that a login inserts in a run. |
| `SessionTheorems.OneRowExactly` | backend/internal/session/repository.go:169-187 | A logout and a revocation by id change the one row, if it is unrevoked (and the user's), and no other. |
| `SessionTheorems.ScansExactly` | backend/internal/session/repository.go:65-421 | Row by row, which rows the snapshot of each statement finds: same device, outside the kept ones, the user's, other than the current one, or never refreshed for more than 90 seconds and less than 600. |
| `SessionTheorems.LandsRowByRow` | backend/internal/session/repository.go:65-421 | Row by row, what each statement writes when it lands: the rows it found that are still unrevoked, with its own time and reason, and no other. |
| `SessionTheorems.PurgesExactly` | backend/internal/session/repository.go:423-435 | The purge finds exactly the rows that are expired, revoked, or unused for 300 seconds. |
| `SessionTheorems.PurgeLands` | backend/internal/session/repository.go:423-435 | When the purge lands exactly the rows it found go, and no other is changed. |
| `SessionRuns.StepInv` | backend/internal/session/repository.go:53-435 | Every step of every transaction keeps the invariant that ties the rows, the row locks and the open statements to the logins, the accepted refreshes and the OIDC store. |
| `SessionRuns.StepOnlyRevokes` | backend/internal/session/repository.go:65-435 | Every step but an INSERT and a rotation's commit only deletes rows or revokes unrevoked ones, never with reason rotation. |
| `SessionRuns.RotateAccepts` | backend/internal/auth/service.go:915-929 | A refresh that passes the checks extends the history without breaking its time limits or repeating a token. |
| `SessionTable.MostRecentExists` | backend/internal/session/repository.go:255-266 | The subquery of the eviction has an answer for every table and every limit. |
| `SessionTable.EvictionKeepsTheNewest` | backend/internal/session/repository.go:255-271 | Eviction leaves min(keep, count) rows, each at least as recently active as every row it revokes, and spares other users. |
| `SessionTable.RotationKeepsTheCount` | backend/internal/session/repository.go:150-164 | Rotation changes nobody's number of unrevoked rows. |
| `SessionRepository.Repository.Create` | backend/internal/session/repository.go:53-63 | Inserts one unrevoked row with no last-used time. |
| `SessionRepository.Repository.RevokeForDevice` | backend/internal/session/repository.go:65-85 | Row by row: exactly the user's unrevoked, unexpired rows of that device are revoked, now, as replaced; every other row stays as it is. |
| `SessionRepository.Repository.RotateSession` | backend/internal/session/repository.go:106-167 | Rotated if and only if the row is there, unrevoked and unexpired, its user active, and last active within the limit; then the old row is superseded and one row of the same user and expiry inserted, and otherwise nothing is written. |
| `SessionRepository.Repository.Revoke` | backend/internal/session/repository.go:169-187 | Revokes the row if it is unrevoked, as a logout. |
| `SessionRepository.Repository.CheckReuse` | backend/internal/session/repository.go:189-215 | Names the owner exactly of a row superseded by rotation at least five seconds ago. |
| `SessionRepository.Repository.RevokeAllForUser` | backend/internal/session/repository.go:217-234 | Leaves the user no unrevoked row and no live OIDC token; other users' tokens stay. |
| `SessionRepository.Repository.RevokeOtherSessions` | backend/internal/session/repository.go:236-250 | Row by row: exactly the user's unrevoked, unexpired rows other than the current one are revoked. |
| `SessionRepository.Repository.SelectNewest` | backend/internal/session/repository.go:260-266 | Selection by last activity returns a legal answer of ORDER BY ... LIMIT. |
| `SessionRepository.Repository.EvictExcessSessions` | backend/internal/session/repository.go:252-271 | Row by row: exactly the user's unrevoked rows outside a most-recent selection of at most keep are revoked, and fewer than keep are left only if nothing is revoked. |
| `SessionRepository.Repository.RevokeByID` | backend/internal/session/repository.go:361-379 | Succeeds exactly for an unrevoked row of that user, and revokes that one. |
| `SessionRepository.Repository.RevokeStaleInitialSessions` | backend/internal/session/repository.go:387-421 | Revokes exactly the never-refreshed rows older than 90 seconds and younger than ten minutes, and counts them. |
| `SessionRepository.Repository.DeleteExpired` | backend/internal/session/repository.go:423-435 | Row by row: exactly the rows that are unexpired, unrevoked and used within the last 300 seconds survive, unchanged; the rest are counted. |
| `SessionRepository.Repository.ResetPassword` | backend/internal/passwdreset/repository.go:148-152 | Revokes every row of the user, and leaves reasons and last-used times alone. |
| `AuthService.LoginWithinCap` | backend/internal/auth/service.go:865-881 | After a login the new row stands, the user has at most cap rows, none of the others an unexpired one of the same device, and other users are untouched. |
| `AuthService.IdleAlwaysEnforced` | backend/internal/auth/service.go:1122-1142 | No value of the settings switches the idle check off: a refresh passes if and only if its user is active, its row unexpired and last active within a positive limit. |
| `AuthService.Service.CompleteLogin` | backend/internal/auth/service.go:865-881 | On the rows: the new row stands; of the others exactly the user's unexpired ones of this device are replaced; any further one is evicted only when cap - 1 rows at least as recently active stand in its place, so with fewer than cap unrevoked rows nothing else goes; the user has at most cap. |
| `AuthService.LoginRows` | backend/internal/auth/service.go:865-881 | What a login does to each row that was there: replaced on this device, evicted, or left alone. |
| `AuthService.EvictedForOthers` | backend/internal/auth/service.go:865-874 | A row on another device, or expired, goes only when cap - 1 rows at least as recently active stand in its place. |
| `AuthService.RoomForAll` | backend/internal/auth/service.go:865-881 | With fewer than cap unrevoked rows exactly the unexpired ones of this device go. |
| `AuthService.Service.Timeout` | backend/internal/auth/service.go:1122-1142 | A missing or non-positive setting gives the default. |
| `AuthService.Service.RefreshTokens` | backend/internal/auth/service.go:896-949 | Accepted if and only if the row is unrevoked and unexpired, its user active and last active within the limit for the user's roles (180 seconds for an admin, 300 for others, unless set); a deactivated user never is. Otherwise a row superseded at least 5 seconds ago is answered by revoking all the user's sessions and OIDC tokens, and anything else changes nothing. |
| `Lockout.AlwaysSpaced` | backend/internal/auth/service.go:1023-1056 | Consecutive recorded failures from the limit on are at least the lock set by the earlier one apart. |
| `Lockout.GuessingTakesTime` | backend/internal/auth/service.go:1033-1056 | Logins one at a time: n recorded failures, n >= max + 6, with no success or unlock, take at least 1080 + 1800 * (n - max - 6) seconds, for every timing of the attempts. |
| `Lockout.BoundIsExact` | backend/internal/auth/service.go:1033-1056 | That bound cannot be improved: retrying the moment each lock ends takes exactly the sum of the locks. |
| `LockoutOverlap.OverlappingGuessesTakeTime` | backend/internal/auth/service.go:1023-1056 | With at most c guesses past the lock check at once, in any interleaving of checks, INCRs and lock SETs (a late SET may replace a longer lock by a shorter one), max + c * m recorded failures take at least the m shortest locks, 1080 + 1800 * (m - 6) seconds from m = 6 on. |
| `LockoutOverlap.OverlapIsReached` | backend/internal/auth/service.go:1023-1056 | Some run with at most c in flight records max - 1 + c * (m + 1) failures in 1800 * m seconds: c for every lock, within a constant of the bound. |
| `LockoutOverlap.StepInv` | backend/internal/auth/service.go:1023-1056 | Every step keeps that between failures k and k + c a whole lock passes. |
| `LockoutOverlap.GuessIsItsSteps` | backend/internal/auth/service.go:1023-1056 | A guess alone, its lock set before the next check, is the one-step model of lockout.dfy. |
| `Lockout.LocksNeverShrink` | backend/internal/auth/service.go:1045-1056 | More failures never mean a shorter lock. |
| `Lockout.DefaultScheduleIsProgressive` | backend/internal/auth/service.go:182-193 | At the default limit of 5 the inline schedule is progressiveLockout. |
| `Lockout.LoginGuard.CheckLockout` | backend/internal/auth/service.go:1023-1032 | Reports a lock exactly while there is one, with the seconds left. |
| `Lockout.LoginGuard.RecordFailedAttempt` | backend/internal/auth/service.go:1033-1056 | Counts the failure, and from the limit on locks for 60, 300 or 1800 seconds by how far past it the count is. |
| `Lockout.LoginGuard.ClearFailedAttempts` | backend/internal/auth/service.go:1075-1080 | Drops counter and lock. |
| `Lockout.LoginGuard.Login` | backend/internal/auth/service.go:256-284 | A locked login records nothing; a wrong password is recorded; a right one clears. |
| `RateLimiter.TwiceMaxPerWindow` | backend/pkg/middleware/ratelimit.go:48-91 | Without Redis errors at most 2 * max requests are admitted in any closed interval of one window, for every arrival sequence. |
| `RateLimiter.FirstMaxOfALifetime` | backend/pkg/middleware/ratelimit.go:72-91 | Request n of a key's lifetime is admitted if and only if n <= max. |
| `RateLimiter.HalfOpenBound` | backend/pkg/middleware/ratelimit.go:48-91 | At most 2 * max - 1 requests are admitted in any window seconds, the last one not counted twice, for every arrival sequence. |
| `RateLimiter.LimitHoldsExactly` | backend/pkg/middleware/ratelimit.go:72-91 | Given the key at some moment, the next window seconds admit at most max requests whatever arrives if and only if no lifetime is running, or it outlasts those seconds, or it has used up its max. |
| `RateLimiter.TwoSecondsSuffice` | backend/pkg/middleware/ratelimit.go:72-91 | 2 * max - 1 requests can be admitted within two seconds: the half-open bound is met, and the window does not slide. |
| `RateLimiter.BurstsMeetTheBound` | backend/pkg/middleware/ratelimit.go:72-91 | The closed bound is met: max requests at 0 and max more exactly one window later are all admitted. |
| `RateLimiter.Limiter.Increment` | backend/pkg/middleware/ratelimit.go:72-91 | Counts, opens the window on the first request, and reports the time to its end. |
| `RateLimiter.Limiter.Handle` | backend/pkg/middleware/ratelimit.go:35-68 | Serves exactly the requests counted up to max, with the right remaining count and retry time. |
| `WebhookThrottle.PruningIsInvisible` | backend/internal/audit/repository.go:61-86 | With nondecreasing timestamps the pruned throttle answers every call, after every sequence of calls, as one that never forgets. |
| `WebhookThrottle.PruningIsVisibleExactly` | backend/internal/audit/repository.go:61-86 | With stamps in any order, the first call answered differently from a throttle that never forgets is one whose key was dropped and whose stamp is less than a minute after the key's last dispatch, although an earlier call was stamped a minute or more after it; and then it dispatches. |
| `WebhookThrottle.VisibleOnlyAtTheEdge` | backend/internal/audit/repository.go:63-66 | When no stamp is more than d seconds late, that call is within d seconds of the end of the minute. |
| `WebhookThrottle.LateStampSlipsThrough` | backend/internal/audit/repository.go:76-84 | A run in which a stamp one second late is dispatched early because the key was pruned. |
| `WebhookThrottle.AtMostOnePerMinute` | backend/internal/audit/repository.go:71-74 | For one key, with stamps at most d < 60 seconds late, any span of L seconds has at most L / (60 - d) + 1 dispatches. |
| `WebhookThrottle.StepForgets` | backend/internal/audit/repository.go:71-85 | One call answers alike on both memories and forgets only what no longer throttles. |
| `WebhookThrottle.Throttle.ShouldDispatchWebhook` | backend/internal/audit/repository.go:61-86 | Fires if and only if the key was not dispatched less than 60 seconds ago, remembers it then, and with more than 1000 keys drops exactly those that no longer throttle. |
| `SettingsCache.StalenessIsBounded` | backend/internal/settings/cache.go:34-80 | In every interleaving of reads, updates and invalidations a served value was the stored one at a moment of its fetch, and that fetch ended less than a minute ago. |
| `SettingsCache.UpdateTakesEffect` | backend/internal/settings/handler.go:231-239 | After an update and its invalidation the cache can come to hold another value, before the next update, if and only if an earlier read is still under way with an older value in its hands. |
| `SettingsCache.RunsCurrent` | backend/internal/settings/handler.go:231-239 | Once stored value, cache and readers agree they agree until the next update. |
| `SettingsCache.Cache.GetString` | backend/internal/settings/cache.go:61-80 | Answers with the cached value while it lasts, then the stored one, then the default, and caches what it read. |
| `SettingsCache.Cache.GetInt` | backend/internal/settings/cache.go:34-59 | Is the parsed answer of GetString, with the default for what does not parse, and caches alike. |
| `SettingsCache.Cache.GetBool` | backend/internal/settings/cache.go:82-107 | Is the parsed answer of GetString, with the default for what does not parse, and caches alike. |
| `SettingsCache.GetterIsItsSteps` | backend/internal/settings/cache.go:34-80 | A getter run alone is the look-up, fetch and fill of the interleaved model: same answer, same cache. |
| `SettingsCache.UpdateIsItsSteps` | backend/internal/settings/handler.go:231-239 | An update run alone is its store and its invalidation. |
| `SettingsCache.Cache.Update` | backend/internal/settings/handler.go:231-239 | With no fetch in flight the next read of that key finds the new value and every other key reads as before. |
| `TotpReplay.TwiceForAStep` | backend/internal/mfa/service.go:85-244 | Over Validate, ValidateStepUp, Setup, VerifyAndEnable and Disable with the replay store up: two acceptances under one secret are each for a step in their own window, and one step can be behind both only if the first enabled the secret, or the two codes were spelled differently, one with something the TOTP library trims. |
| `TotpReplay.NeverTwiceForAStep` | backend/internal/mfa/service.go:204-218 | Validate and ValidateStepUp by themselves accept two codes under one secret only for two different steps, each in its own window; one spelling again only 90 seconds later and for a later step (section 5.2 of RFC 6238). |
| `TotpReplay.ValidatesExactly` | backend/internal/mfa/service.go:204-218 | A code is accepted by TOTP if and only if it is the code of the step at hand or of one next to it and no marker of its spelling is live; it is then marked for 90 seconds. |
| `TotpReplay.OthersExactly` | backend/internal/mfa/service.go:85-166 | The same of Setup, VerifyAndEnable and Disable, each with what it leaves. |
| `TotpReplay.AcceptedInItsWindow` | backend/internal/mfa/service.go:85-218 | In every run every accepted code, whatever the path, is that of a step within one of the moment at which it was accepted. |
| `TotpReplay.RefusedOnlyAsReplay` | backend/internal/mfa/service.go:73-83 | Validate refuses the code of a step in the window if and only if the same spelling was accepted for that user, by any path but enabling, less than 90 seconds ago. |
| `TotpReplay.EnablingCodePassesAgain` | backend/internal/mfa/service.go:135-145 | A run in which the code that enabled a secret passes Validate at once. |
| `TotpReplay.BlanksPassAgain` | backend/internal/mfa/service.go:97-107 | A code that Setup took with blanks around it passes Validate without them. |
| `MfaService.Service.MarkUsed` | backend/internal/mfa/service.go:73-83 | Reports a live marker, or sets one for 90 seconds; an unreachable store changes nothing. |
| `MfaService.Service.Take` | backend/internal/mfa/service.go:210-217 | A valid code is taken and marked, or found used, or not decided when the store is down. |
| `MfaService.Service.Validate` | backend/internal/mfa/service.go:204-244 | With the replay store up it is a step of the replay model; a code of the step at hand or of one next to it is decided by the replay store alone, fails open or closed as asked without it, and never uses up a recovery code; anything else passes exactly by consuming a recovery code. |
| `MfaService.Service.Setup` | backend/internal/mfa/service.go:87-133 | A new secret becomes pending; an enabled user must present a valid unused code, and without the replay store is refused. |
| `MfaService.Service.VerifyAndEnable` | backend/internal/mfa/service.go:135-145 | The pending secret is enabled exactly by a valid code of its own, which is not marked. |
| `MfaService.Service.Disable` | backend/internal/mfa/service.go:147-166 | Everything of the user's goes exactly for a valid unused code, and without the replay store nothing does. |
| `RecoveryCodes.ConsumeRemovesOne` | backend/internal/mfa/repository.go:90-124 | A code succeeds if and only if a stored hash matches; exactly the first matching entry goes and the rest keep their order. |
| `RecoveryCodes.FirstMatchIsFirst` | backend/internal/mfa/service.go:224-231 | The scan finds the first matching hash. |
| `RecoveryCodes.EachCodeOnce` | backend/internal/mfa/repository.go:90-124 | In every order of concurrent tries a code succeeds at most as often as hashes match it, so at most once for one hash. |
| `RecoveryCodes.CodesAreConserved` | backend/internal/mfa/repository.go:90-124 | When no hash matches two codes only a code's own success uses it up. |
| `RecoveryCodes.FreshCodesWork` | backend/internal/mfa/service.go:289-306 | Every code of a fresh set is accepted. |
| `RecoveryCodes.Repository.UpsertPending` | backend/internal/mfa/repository.go:43-53 | A pending setup leaves the active secret, codes and flag alone. |
| `RecoveryCodes.Repository.Enable` | backend/internal/mfa/repository.go:55-74 | Pending secret and codes become active together exactly when there is a pending secret. |
| `RecoveryCodes.Repository.UpdateRecoveryCodes` | backend/internal/mfa/repository.go:76-83 | Replaces the active codes of an existing row and nothing else. |
| `RecoveryCodes.Repository.ConsumeRecoveryCode` | backend/internal/mfa/repository.go:85-124 | The locked transaction does one consumption, or changes nothing. |
| `RecoveryCodes.Repository.Delete` | backend/internal/mfa/repository.go:126-130 | Removes the user's row. |
| `RecoveryCodes.GenerateRecoveryCodes` | backend/internal/mfa/service.go:289-306 | Eight codes, each with its own hash at the same index. |
| `RecoveryCodes.RegenerateRecoveryCodes` | backend/internal/mfa/service.go:168-184 | Replaces all codes of an enabled user by eight fresh ones; refuses anybody else without a change. |
| `LastAdmin.RefusedExactly` | backend/internal/user/repository.go:535-570 | A guard refuses if and only if the call would take the system from some active admin to none (an unknown role is reported first). |
| `LastAdmin.AlwaysAnAdmin` | backend/internal/user/repository.go:403-570 | One transaction at a time: once an active admin exists every sequence of SetRoles, SetActive and BulkSetActive calls, accepted or refused, leaves one. |
| `LastAdminOverlap.OverlapLeavesAnAdmin` | backend/internal/user/repository.go:403-570 | Whatever of the updates under way lands, in whatever order, an active admin is left at every moment if and only if some active admin is the target of none of them. |
| `LastAdminOverlap.SerialGuardsSuffice` | backend/internal/user/repository.go:535-570 | Overlapping transactions never let the last active admin go as long as no guard reads while a demotion is under way. |
| `LastAdminOverlap.TwoGuardsPass` | backend/internal/user/repository.go:505-533 | A run in which two deactivations, each guard reading before the other's update lands, leave no active admin. |
| `LastAdmin.AllOrNothing` | backend/internal/user/repository.go:403-533 | A call that is not done changes nothing; a done one changes what the unguarded call would. |
| `LastAdmin.UserByUser` | backend/internal/user/repository.go:403-533 | What a done call does to every single user: exactly the targets that exist get the flag, or the roles, and keep the other; nobody comes or goes. |
| `LastAdmin.RolesOutcome` | backend/internal/user/repository.go:402-449 | Exactly when SetRoles finds an unknown role, refuses for the last admin, or violates a key. |
| `LastAdmin.ActiveOutcome` | backend/internal/user/repository.go:505-533 | Exactly when SetActive refuses, finds nobody, or is done. |
| `LastAdmin.BulkOutcome` | backend/internal/user/repository.go:451-503 | Exactly when BulkSetActive refuses. |
| `LastAdmin.Repository.GuardLastAdmin` | backend/internal/user/repository.go:535-570 | Refuses exactly when the target is the only active admin. |
| `LastAdmin.Repository.SetRoles` | backend/internal/user/repository.go:402-449 | The loops over the role names refuse unknown and repeated roles, apply the guard, and replace the roles. |
| `LastAdmin.Repository.SetActive` | backend/internal/user/repository.go:505-533 | Done: the user has the flag and keeps the roles, and every other user is unchanged; refused exactly for the only active admin; not found exactly when there is no such user. |
| `LastAdmin.Repository.BulkSetActive` | backend/internal/user/repository.go:451-503 | Done: exactly the listed users that exist have the flag and keep their roles, and everybody else is unchanged; refused exactly when all active admins are listed. |
| `LastAdmin.Repository.WouldLockOut` | backend/internal/user/repository.go:460-488 | The two counting queries tell exactly whether the targets are all the active admins. |
| `MailQueue.ExactlyOnePlace` | backend/pkg/mailer/resilient.go:70-177 | Before Stop, in every run each accepted job is in exactly one place, once: queued, being sent, waiting, blocked on the queue, delivered or failed. |
| `MailQueue.RetriesAreBounded` | backend/pkg/mailer/resilient.go:141-177 | A job is sent at most five times and backs off at most 15 base delays; a failed one was sent exactly five times and backed off exactly 15. |
| `MailQueue.EveryJobEnds` | backend/pkg/mailer/resilient.go:115-177 | Once submissions stop only boundedly many steps are possible, and when none is left every accepted job has exactly one outcome. |
| `MailQueue.StepsUseUp` | backend/pkg/mailer/resilient.go:115-177 | Every step but a submission lowers the measure over remaining attempts. |
| `MailQueue.NeverStuck` | backend/pkg/mailer/resilient.go:115-177 | While a job is under way something other than a submission can happen. |
| `MailQueue.StepConserves` | backend/pkg/mailer/resilient.go:76-177 | No step loses or duplicates a job. |
| `MailQueue.StepInv` | backend/pkg/mailer/resilient.go:70-177 | Every step keeps places, attempt counts, sends and backoff in step. |
| `MailQueue.ResilientMailer.Submit` | backend/pkg/mailer/resilient.go:70-89 | Accepts exactly when the queue has room and never waits. |
| `MailQueue.ResilientMailer.WorkerTakes` | backend/pkg/mailer/resilient.go:115-128 | The oldest job goes to a worker. |
| `MailQueue.ResilientMailer.ProcessJob` | backend/pkg/mailer/resilient.go:130-176 | Delivered, failed after the fifth try, or waiting base * 2^(attempt-1). |
| `MailQueue.ResilientMailer.TimerFired` | backend/pkg/mailer/resilient.go:161-176 | Back to the queue, or to a goroutine that waits for room. |
| `MailQueue.ResilientMailer.Unblocked` | backend/pkg/mailer/resilient.go:168-174 | A waiting goroutine puts its job into a queue with room. |
| `AuditMetadata.RoundTrip` | backend/internal/audit/repository.go:120-172 | With an invertible cipher and codec, logged then listed metadata is the same if and only if none of its six clear fields is present and null; a key named payload survives. |
| `AuditMetadata.OnlyNullsAreLost` | backend/internal/audit/repository.go:349-373 | What comes back is the metadata without its null clear fields, whatever the rest holds. |
| `AuditMetadata.ClearFieldsWin` | backend/internal/audit/repository.go:366-371 | For any stored column, decrypted content never overrides a clear field. |
| `AuditMetadata.ColumnExactly` | backend/internal/audit/repository.go:120-172 | Field by field, what a logged entry's column holds in the clear and what it seals. |
| `AuditMetadata.OnlyThePayloadTells` | backend/internal/audit/repository.go:131-150 | Entries that agree on the six clear fields have columns that differ at most in the sealed text. |
| `AuditMetadata.Repository.Log` | backend/internal/audit/repository.go:110-172 | The column of non-empty metadata holds the payload and otherwise only outcome, status, location, reason, anomaly_type and risk_score, where present and not null; the payload is the sealing of exactly the fields outside those six. |
| `AuditMetadata.Repository.List` | backend/internal/audit/repository.go:349-373 | Refuses a payload that is not a non-empty text or does not open; otherwise merges field by field. |

## Left out

- GrantOperations.CommandsRefineOperations: only for operations whose commands do not overlap; what overlapping commands do is the subject of OverlapTheorems and IndexCoverage.
- OverlapTheorems.MissLeaves: the response's own commands come without another request's in between, at any moment of any interleaving; OverlapTheorems.LateDelLeaves has them come apart, and OverlapTheorems.LateUserDelExactly those of a mass revocation.
- SessionTheorems.OidcGone: the Redis revocation is one step there; between its commands see OverlapTheorems.LateUserDelExactly.
- SessionRuns.StepInv: INSERT, logout and revocation by id touch one row and are one step; a statement on many rows changes them all at its commit, and one that the database aborts as a deadlock is given up.
- SessionTheorems.NoStaleSession: the sweep loop is endless, so its cadence is the hypothesis that sweeps are at most g seconds apart.
- SessionCaps.SessionCap: the cap is held fixed over the run, and is at least 1, which the settings handler enforces; a lower value written by other means makes the eviction query fail or keep nothing. An eviction that the database refuses, after which the login goes on, is not in the runs.
- AuthService.Service.CompleteLogin: the same for a cap below 1.
- Lockout.GuessingTakesTime: logins one at a time; LockoutOverlap has overlapping ones.
- LockoutOverlap.OverlappingGuessesTakeTime: success, unlock and a server that stops between INCR and SET are not in the runs.
- SettingsCache.Cache.GetInt: what strconv accepts is a parameter.
- LastAdmin.AlwaysAnAdmin: one transaction at a time; LastAdminOverlap has overlapping ones. Creating and deleting users and roles is in neither.
- MailQueue.EveryJobEnds: holds for a queue of at least one place and at least one worker, before Stop; the program starts 2 workers over 1000 places. Stop drops what is under way.
- Redis and database failures, and the paths that then fail open: only Validate's replay store can be down.
- The gap between the database's clock and the program's, and Redis rounding a TTL to whole seconds.
- Generating and encrypting TOTP secrets; what the normalisation of a code and the trimming by the TOTP library do is a parameter.
- The password, token and rate checks of a password reset; only its session update is here.
- Client authentication, JWT signing, ID-token claims and PKCE hashing: answers of a parameter.
- Event broadcasts, mail wording, login risk scoring, travel detection, passwordless and WebAuthn login.
- Listing, sorting, paging, dashboards, metrics, profiles, avatars, HTTP handlers and cookies: no property beyond one body.
- Audit metadata logged or listed without a secrets client, which is stored and shown as it is.
- A rate limit with a negative maximum, and a counter key that lost its expiry.
- The frontend.
