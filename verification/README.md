# Verification of the media gateway's stateful protocols

This project models the small stateful protocols inside the Rust backend and
proves what they promise over whole runs, in Dafny 4.11:

- the two stores behind likes, dislikes and the household veto, written one
  after the other with hand-written rollback (`Titles`, `Stores`, `Household`,
  `FeedbackRoutes`);
- lock tables, the session gate's cache and a single-flight registry that
  reclaim their entries (`KeyedLocks`, `SingleFlights`, `PlexGate`);
- membership, invites, device pairing and device tokens as a small database
  (`Membership`, `DevicePairing`, `DeviceTokens`, `Identity`);
- the stream-token codec down to the bytes (`StreamToken`, `Json`, `Utf8`,
  `Base64Url`, `Decimal`);
- the multi-bucket rate limiter (`RateLimiter`), the rotating log and its
  backward reader (`JsonlLog`), watch-together groups (`SyncPlay`), the
  suggestion pipeline (`SuggestionPicks`, `RecentlyShown`) and dot-segment
  removal (`DotSegments`).

`Pieces` and `Util` hold shared vocabulary. Methods that only carry out one step
function (a table lookup, an insert, a guarded delete) have contracts but no row below. `dafny verify dfyconfig.toml` checks
everything.

## How the models are built

Code that changes state is a class or a method with the source's loops and
branches; its contract equates the new state with a specification function, and
the laws are lemmas about those functions and about runs of them. A run is a
sequence of events folded from the front; a theorem about runs is by induction
on the last event. Where requests interleave, each store call, SQL statement,
guarded map access or await is an event of its own, and the requests in
progress are part of the state. A transaction opened with `BEGIN IMMEDIATE` is
one event, because it holds the write lock from its first read to its commit.

Any call may fail where the source handles a failure: a store read or write
(an input of each call in `Household` and `FeedbackRoutes`), a rename or a block read in
the log, a mint after a consume, a lookup, a probe. A failed store write leaves file and
cache as they were.

No clock is assumed to run forward. Where the source reads a clock before it takes
a lock, requests are listed in the order they get the lock and carry the stamp
they read, so stamps may come in any order (`RateLimiter`, `SyncPlay`,
`DeviceTokens`, `DevicePairing`, `PlexGate`). A theorem that needs stamps in lock
order says so, as do the `RateLimiter` rows below; the others hold for any stamps.

What the models take as given: drawn ids (pairing
codes, token ids, invite codes, group ids) are new; the message authentication
code is some function of key and bytes; ADMIN_SUBS entries are well-formed, as
the configuration loader requires (crates/auth/src/config.rs:145-159); stored timestamps
compare as times. The grammar of subs and the normalizing of titles are function
parameters, and so is the test for the decimals that denote a finite double.

## Where the code and its documentation differ

- `clean` (crates/gateway/src/stores.rs:190-201) is not idempotent: the cut at
  the cap can leave a trailing space. Invariants are therefore on ids.
- A like that drops the veto and then loses both its own write and the restored
  veto leaves a dislike uncovered, as the log message admits
  (crates/gateway/src/routes.rs:270-273). `FeedbackRoutes.UncoveredIff` shows that
  nothing else does, and `Household.AHoleCloses` that the
  hole closes for good once the title is at rest and covered again.
- `ItemLocks::run` promises to drop an entry that nobody waits for
  (crates/gateway/src/routes.rs:131-135). The clone is dropped after the map's guard and a cancelled
  task never gets there, so an entry can stay behind: exactly when the last task
  to go was cancelled or another one still held the lock at its cleanup
  (`KeyedLocks.LastOutLeavesTheEntryIff`, `KeyedLocks.CancelledLastOutLeavesTheEntry`).
  The next task reuses the entry, and exclusion is not affected.
- `SingleFlight` promises one call to concurrent callers
  (crates/gateway/src/suggestions.rs:224). A flight whose callers were all dropped stays
  registered after it landed, and its old value is handed to a caller that was
  never concurrent with it (`SingleFlights.AnOldValueIff`).
- `retry_after_seconds` (crates/auth/src/ratelimit.rs:259-262) is documented to round up, but
  truncates to milliseconds first, so the wait it tells can be up to a millisecond
  short and a client that waits exactly that long can be refused again
  (`RateLimiter.WaitingIsEnoughIff`, `RateLimiter.AWaitCanBeShort`).
- A request that reads the clock before its bucket resets and gets the lock
  after a sweep stamped past that reset finds its full bucket gone and is let in
  (`RateLimiter.FirstLateAnswerIff`, `RateLimiter.ALateRequestIsLetIn`).
- `device_tokens::verify` documents 5 s of skew after expiry. The row check has
  none, so the skew never admits a token (`DeviceTokens.VerdictIsHistory`).
- `issue` does not read the issuer's row, so the admin list can show an active
  invite that every redemption refuses.
- `remove_dot_segments` on a path that contains a backslash but does not start
  with a slash only turns the backslashes; `DotSegments.RewrittenPathIsClean` has
  the exact condition. This is about the function alone: its caller passes the
  path of a parsed URI, which is never of that shape.

## Model

| member | source | states |
|---|---|---|
| `Household.EveryDislikeIsVetoed` | crates/gateway/src/routes.rs:214-378 | over every interleaving of requests on any titles, deletions, backfills and restarts, with any store call allowed to fail, a title nobody is writing is vetoed if anyone dislikes it, unless the compensating write of a red-to-green flip failed too or the process died inside one |
| `Household.AHoleCloses` | crates/gateway/src/routes.rs:214-378 | a title left uncovered that is later at rest and covered again stays protected from then on: only a new lost compensation, or a new restart inside one, can uncover it |
| `Household.TheVetoIsTheUnionOfTheDislikes` | crates/gateway/src/routes.rs:214-378 | with no account deletion, no restart and every compensation succeeding, a title at rest is vetoed exactly when someone dislikes it |
| `Household.PerformMovesOneView` | crates/gateway/src/stores.rs:361-540 | each store call moves one title as its name says when it succeeds, leaves every title alone when it fails, and touches no other title |
| `Household.ContinueKeepsAt` | crates/gateway/src/routes.rs:229-287 | every branch taken after a store call, rollbacks included, leads to a point whose coupling between dissenters and veto is the one expected there |
| `Household.RestartLeavesIdle` | crates/gateway/src/routes.rs:248-274 | a request cut short leaves its title covered unless it was between dropping the veto and storing the like |
| `FeedbackRoutes.ARequestIsAllOrNothing` | crates/gateway/src/routes.rs:214-378 | a request that runs alone on a covered title leaves exactly what was asked when it answers ok and exactly what it found when it answers an error, unless a compensating write failed as well |
| `FeedbackRoutes.OnlyARedToGreenFlipUncovers` | crates/gateway/src/routes.rs:264-275 | a request that runs alone on a covered title leaves it covered if and only if its run did not lose the compensating write of a red-to-green flip |
| `FeedbackRoutes.UncoveredIff` | crates/gateway/src/routes.rs:255-277 | the same from the start alone: a request uncovers a title if and only if it is a like by the only dissenter, its read answers, the veto is dropped, and the like and the restored veto then meet write faults |
| `FeedbackRoutes.LosingBothWritesUncovers` | crates/gateway/src/routes.rs:264-275 | the hole is real: the only dissenter's like and the restored veto both failing leaves a dislike without its veto |
| `FeedbackRoutes.Dislikes` | crates/gateway/src/routes.rs:230-254 | a dislike follows the step-by-step program on the two stores: veto first, personal write second, the veto undone only if it is new and nobody else dissents |
| `FeedbackRoutes.Likes` | crates/gateway/src/routes.rs:255-277 | a like follows the program: a red title's veto is dropped unless another member dissents, and put back when the like is not stored |
| `FeedbackRoutes.Clears` | crates/gateway/src/routes.rs:319-378 | a clear follows the program: the stored signal decides whether the veto is touched, and the dislike is restored when the veto cannot be dropped |
| `FeedbackRoutes.JsonStore.Update` | crates/gateway/src/stores.rs:84-95 | a write takes effect in memory and on disk together, or changes nothing |
| `FeedbackRoutes.JsonStore.Get` | crates/gateway/src/stores.rs:77-104 | the first read loads and parses the file once; a failed read leaves the store unloaded |
| `Stores.SetSignalMovesOneDissenter` | crates/gateway/src/stores.rs:361-397 | one signal write moves one member in or out of one title's dissent and nobody else, whatever the lists held |
| `Stores.DropUserDropsOneDissenter` | crates/gateway/src/stores.rs:400-407 | deleting an account takes away that member's dissent and nobody else's |
| `Stores.BackfillLikeKeepsDissent` | crates/gateway/src/stores.rs:412-435 | a title backfill of a like changes nobody's dissent |
| `Stores.AnotherDislikesIsDissent` | crates/gateway/src/stores.rs:439-448 | the question "does another member dislike it" is answered yes exactly when a dissenter other than the caller exists |
| `Stores.AddVetoVetoesOnlyTheTitle` | crates/gateway/src/stores.rs:489-505 | adding a rejection vetoes that title and no other |
| `Stores.RemoveVetoClearsOnlyTheTitle` | crates/gateway/src/stores.rs:530-540 | removing a rejection clears that title and no other |
| `Stores.BackfillVetoKeepsTheVeto` | crates/gateway/src/stores.rs:508-528 | a title backfill of a rejection changes no veto |
| `Stores.ReloadKeepsTheIds` | crates/gateway/src/stores.rs:224-250 | reading the files back keeps every dissent of a named member and every veto |
| `Titles.CleanIsTidy` | crates/gateway/src/stores.rs:190-201 | a cleaned title has no control character, no double space, no leading space and at most the capped length in UTF-16 units |
| `Titles.FixedPoints` | crates/gateway/src/stores.rs:190-201 | for every string: cleaning leaves it alone if and only if it is tidy, within the cap and does not end in a space |
| `Titles.CleanTwice` | crates/gateway/src/stores.rs:190-201 | cleaning again changes a title exactly when the cut at the cap left a trailing space |
| `Titles.CleanIsNotIdempotent` | crates/gateway/src/stores.rs:190-201 | a title whose cut leaves a trailing space exists, so stored titles are not fixed points |
| `KeyedLocks.MutualExclusion` | crates/gateway/src/routes.rs:118-137 | in every interleaving, and under either way of reclaiming entries, two tasks inside the critical section of one key are the same task |
| `KeyedLocks.NewcomersShareTheLock` | crates/gateway/src/routes.rs:123-137 | whoever arrives for a key that a task waits for, holds or is about to clean up gets that task's lock |
| `KeyedLocks.ProbeTableHoldsOnlyProbesInFlight` | crates/auth/src/reconcile.rs:203-209 | right after a probe lock is handed out, every lock in the table belongs to a probe in flight |
| `KeyedLocks.CleanDropsIff` | crates/gateway/src/routes.rs:131-135 | in every reachable state, a task's cleanup drops its key's entry if and only if that task is the lock's only holder |
| `KeyedLocks.OrphanedIff` | crates/gateway/src/routes.rs:123-137 | in every run, a step leaves an entry that nobody holds exactly when it is the departure of the last holder of an entry still in the table |
| `KeyedLocks.LastOutLeavesTheEntryIff` | crates/gateway/src/routes.rs:131-137 | the last clone to be dropped leaves its entry behind if and only if another task held the lock when the dropping task cleaned up |
| `KeyedLocks.CancelledLastOutLeavesTheEntry` | crates/gateway/src/routes.rs:123-137 | a task cancelled as the only holder always leaves its entry behind |
| `KeyedLocks.AnEntryCanLinger` | crates/gateway/src/routes.rs:131-135 | a run that ends with an entry and no task: two clean up before either drops its clone |
| `SingleFlights.OneUnfinishedCallPerKey` | crates/gateway/src/suggestions.rs:242-266 | in every interleaving, callers dropped mid-await included, two unfinished calls of one key are the same call |
| `SingleFlights.DeregisteringRemovesOnlyTheAwaitedFlight` | crates/gateway/src/suggestions.rs:260-264 | a caller that finishes removes the flight it awaited or nothing, and no other key |
| `SingleFlights.ValuesAreFinal` | crates/gateway/src/suggestions.rs:246-259 | the value of a finished flight never changes |
| `SingleFlights.RegisteredIff` | crates/gateway/src/suggestions.rs:242-266 | over every run, a spawned flight is registered if and only if no caller that received its value has deregistered |
| `SingleFlights.AnOldValueIff` | crates/gateway/src/suggestions.rs:246-264 | a caller that joins is handed a value computed before it arrived if and only if some flight of its key has landed and no caller has released it |
| `SingleFlights.ALandedFlightCanLinger` | crates/gateway/src/suggestions.rs:242-266 | a run in which that happens: the only caller was dropped before its flight landed |
| `PlexGate.Gate.TokenLive` | crates/auth/src/reconcile.rs:152-177 | whatever other tasks write while it waits for the probe lock and for the probe, the token check fails only when plex.tv refuses and neither look at the cache finds a pass, and only a tolerated probe is cached |
| `PlexGate.Gate.Fresh` | crates/auth/src/reconcile.rs:212-219 | a cached pass counts exactly when the sub's last write is for this token and server, younger than the TTL, and fewer than a thousand other subs were written since |
| `PlexGate.Gate.Set` | crates/auth/src/reconcile.rs:221-244 | writing a pass keeps the table equal to what its history says, at most a thousand entries, the oldest write evicted first |
| `PlexGate.KeptIff` | crates/auth/src/reconcile.rs:221-244 | an entry is present exactly while fewer than a thousand other subs were written after it |
| `Membership.SomeoneStaysInCharge` | crates/auth/src/members.rs:109-223 | from any state in which someone can sign in as administrator, no interleaving of revocations, departures, redemptions, invites and share admissions leaves none |
| `Membership.MutualRevocationFailsClosed` | crates/auth/src/members.rs:104-142 | of two administrators revoking each other, the second is refused |
| `Membership.LastAdminIff` | crates/auth/src/members.rs:177-214 | an administrator's own departure is refused as last admin exactly for an ADMIN_SUBS owner or when nobody else could administer |
| `Membership.RevocationKillsInvites` | crates/auth/src/members.rs:150-163 | a committed revocation leaves the member a revoked row and no unrevoked invite, and touches nobody else's |
| `Membership.DeadInvitesStayDead` | crates/auth/src/members.rs:230-242 | a revoked invite answers revoked in every later state, even after its issuer is let in again |
| `Membership.UsesAreCreations` | crates/auth/src/invites.rs:103-232 | over every run, an invite's used count grows by exactly its Created answers, never passes its maximum, and its role and maximum never change |
| `Membership.RedeemIff` | crates/auth/src/invites.rs:149-232 | a redemption creates if and only if the invite is active, its issuer's row not revoked and the sub well-formed and no member; it changes the database exactly then, admitting the redeemer alone and with the invite's role |
| `Membership.ActiveRowsStay` | crates/auth/src/invites.rs:195-216 | no step changes an active member's row except by revoking it, so a redemption never alters a role |
| `Membership.ActiveMembersAreUntouched` | crates/auth/src/invites.rs:149-232 | until someone asks for its revocation, an active member's row, role included, is the same in every later state of any run |
| `Membership.NoAdminWithoutAnAdminInvite` | crates/auth/src/invites.rs:200-216 | a run without an admin invite makes no new administrator and restores no revoked one |
| `Membership.ListedStatusIsTheAnswer` | crates/auth/src/invites.rs:235-281 | the listed status tells a newcomer's redemption exactly when the issuer's row is not revoked or the invite itself is |
| `Membership.AnInviteCanOutliveItsIssuer` | crates/auth/src/invites.rs:103-126 | an invite issued by a member revoked a moment before lists as active and is still refused |
| `Membership.ServerDb.MemberStatus` | crates/auth/src/members.rs:34-56 | the authorization verdict of a sub |
| `Membership.ServerDb.RevokeSafely` | crates/auth/src/members.rs:109-164 | the statements of an admin revocation give the specified answer and state |
| `Membership.ServerDb.RevokeSelf` | crates/auth/src/members.rs:177-227 | the statements of a self revocation give the specified answer and state, counting other administrators as the source does |
| `Membership.ServerDb.RevokeInvitesOf` | crates/auth/src/members.rs:230-242 | revokes every unrevoked invite of one issuer and no other |
| `Membership.ServerDb.RedeemInvite` | crates/auth/src/invites.rs:149-232 | the statements of a redemption give the specified answer and state |
| `Membership.ServerDb.FindInvite` | crates/auth/src/invites.rs:285-301 | finds the one invite under a hexadecimal prefix if it is unrevoked, and nothing exactly when there is no such invite |
| `DevicePairing.OneClaimOneToken` | crates/auth/src/device_link.rs:184-364 | in every interleaving of statements, a code binds at most one claim, made in time, and yields at most one token, with that claim's sub, role and mode, on the device that started it, from a poll in time |
| `DevicePairing.VerdictIsOwed` | crates/auth/src/device_link.rs:312-337 | a poll is authorized only with the bound claim and the starting device, before the code expired |
| `DevicePairing.WriteKeepsInv` | crates/auth/src/device_link.rs:246-260 | two racing claims cannot both bind |
| `DevicePairing.ConsumeKeepsInv` | crates/auth/src/device_link.rs:338-348 | two racing polls cannot both consume |
| `DevicePairing.MintKeepsInv` | crates/auth/src/device_link.rs:350-364 | minting after a consume, or failing to, keeps one token per code |
| `DevicePairing.PastGrows` | crates/auth/src/device_link.rs:184-202 | no step forgets or rewrites what a code bound or minted |
| `DevicePairing.LinkCodes.ClaimCode` | crates/auth/src/device_link.rs:214-268 | an undisturbed claim refuses unknown, expired and claimed codes in that order and binds otherwise |
| `DevicePairing.LinkCodes.Poll` | crates/auth/src/device_link.rs:312-364 | an undisturbed poll answers as the row says and consumes exactly when it authorizes |
| `Identity.ParseOfText` | crates/auth/src/lib.rs:184-233 | every role and sign-in mode reads back from its stored text |
| `DeviceTokens.VerdictIsHistory` | crates/auth/src/device_tokens.rs:99-172 | over every run of mints, revocations, cascades and sweeps, a minted token verifies, at any second no sweep has read past, exactly from 30 s before it was minted until its expiry and unless it was taken back: sweeping never shows, and the skew allowed after expiry never helps |
| `DeviceTokens.RevokedNeverVerifies` | crates/auth/src/device_tokens.rs:131-161 | once revoked, singly or with its holder, a token is refused in every later state and at any time |
| `DeviceTokens.SweepingIsInvisibleIff` | crates/auth/src/device_tokens.rs:164-172 | a sweep on the spot changes a verdict if and only if it takes a token for expired that was live at the verdict's second, which then lies before the sweep's |
| `DeviceTokens.TokenTable.Mint` | crates/auth/src/device_tokens.rs:54-98 | stores the row of the token it returns; a malformed sub mints nothing |
| `DeviceTokens.TokenTable.Verify` | crates/auth/src/device_tokens.rs:99-128 | returns the claims exactly when they parse, are in their window, and have a live unrevoked row |
| `DeviceTokens.TokenTable.CascadeRevokeForSub` | crates/auth/src/device_tokens.rs:145-161 | revokes every token the sub holds and returns how many |
| `StreamToken.VerifyUndoesSign` | crates/emerald-contracts/src/stream_token.rs:144-165 | what was signed verifies to exactly the same claims for every string, kind and 64-bit number when v is 1, and is refused as an unsupported version otherwise |
| `StreamToken.OnlySignedTokensVerify` | crates/emerald-contracts/src/stream_token.rs:160-165 | a token verifies to some claims if and only if it is the signed spelling of a payload that parses to them |
| `StreamToken.TokensAreNotMalleable` | crates/emerald-contracts/src/stream_token.rs:211-225 | no second token carries the same payload under the same key |
| `StreamToken.CanonicalBytesAreInjective` | crates/emerald-contracts/src/stream_token.rs:120-140 | two claim sets share canonical bytes exactly when they are equal, whatever their version |
| `StreamToken.DualKeyIsEitherKey` | crates/emerald-contracts/src/stream_token.rs:168-184 | verification with two keys accepts what either key accepts, and the flag says that the primary refused the signature |
| `StreamToken.FallbackKeyVerifies` | crates/emerald-contracts/src/stream_token.rs:168-184 | a token of the old key still verifies and is reported unless both keys give it the same digest |
| `StreamToken.SplitIffJoined` | crates/emerald-contracts/src/stream_token.rs:211-225 | a token splits into payload and signature in exactly one spelling |
| `StreamToken.ParseOfCanonical` | crates/emerald-contracts/src/stream_token.rs:257-309 | the canonical bytes parse back to their claims, whichever doubles count as finite |
| `StreamToken.CanonicalBytes` | crates/emerald-contracts/src/stream_token.rs:120-140 | the fixed template, pushed piece by piece, is the JSON object of the claims in key order |
| `StreamToken.JsonEscapeString` | crates/emerald-contracts/src/canonical.rs:28-48 | the loop appends the quoted string and nothing else to the caller's text |
| `Json.ReadOfObject` | crates/emerald-contracts/src/stream_token.rs:257-262 | every printed object of strings and integers reads back as what it says, the last entry of a key winning |
| `Json.ReadOfEscaped` | crates/emerald-contracts/src/canonical.rs:28-48 | reading undoes escaping for every string and every text that follows |
| `Utf8.DecodeOfEncode` | crates/emerald-contracts/src/stream_token.rs:139-139 | decoding undoes UTF-8 encoding |
| `Utf8.EncodeOfDecode` | crates/emerald-contracts/src/stream_token.rs:261-261 | only the shortest UTF-8 spelling of scalar values decodes |
| `Base64Url.DecodeIffEncode` | crates/emerald-contracts/src/stream_token.rs:218-223 | a text decodes to some bytes exactly when it is their encoding: no padding, no stray bits, no foreign character |
| `RateLimiter.SweepingChangesNoDecision` | crates/auth/src/ratelimit.rs:199-245 | over every run in which no request names a swept bucket before its reset, dropping buckets changes no decision, scope or reset time |
| `RateLimiter.SweepingIsInvisibleIff` | crates/auth/src/ratelimit.rs:236-245 | that is exact: every request finds the buckets it names as a limiter that never sweeps would if and only if none comes late to a swept one |
| `RateLimiter.FirstLateAnswerIff` | crates/auth/src/ratelimit.rs:199-245 | the first late request is answered differently if and only if the first full bucket it should have met was swept before its reset |
| `RateLimiter.LateIsOutOfOrder` | crates/auth/src/ratelimit.rs:111-142 | a late request read the clock before one that got the lock ahead of it |
| `RateLimiter.InOrderIsNeverLate` | crates/auth/src/ratelimit.rs:199-245 | with stamps in lock order no request is late |
| `RateLimiter.ALateRequestIsLetIn` | crates/auth/src/ratelimit.rs:199-245 | an eleventh request that read the clock before its reset, behind another identity's sweep after it, is let in |
| `RateLimiter.LimitPerBucket` | crates/auth/src/ratelimit.rs:199-225 | for stamps in any order: the requests accepted on a key fall into consecutive buckets of at most the key's limit each, and the bucket in the table counts the last of them |
| `RateLimiter.LimitPerWindow` | crates/auth/src/ratelimit.rs:199-225 | for stamps in lock order: a bucket counts exactly the requests accepted on its key in its own window |
| `RateLimiter.LimitInAnyInterval` | crates/auth/src/ratelimit.rs:199-225 | for stamps at most some skew out of lock order, how many times the limit any half-open interval of a window's length can hold |
| `RateLimiter.TwiceTheLimitInAnyInterval` | crates/auth/src/ratelimit.rs:199-225 | twice the limit for stamps in lock order, three times for stamps up to 15 s out of it |
| `RateLimiter.ARefusalCountsNothing` | crates/auth/src/ratelimit.rs:215-219 | a refused request raises no counter, whatever rules it carries |
| `RateLimiter.AnAcceptanceCountsEachRuleOnce` | crates/auth/src/ratelimit.rs:220-224 | an accepted request raises exactly the buckets it names, each below its limit and by one |
| `RateLimiter.RulesAreDistinctAndPriced` | crates/auth/src/ratelimit.rs:144-194 | one request never names a bucket twice, and no two requests disagree on a bucket's limit |
| `RateLimiter.WaitingIsEnoughIff` | crates/auth/src/ratelimit.rs:248-262 | for every nanosecond count: the seconds told to a refused client cover what is left if and only if less than a millisecond is left, or whole milliseconds, or the milliseconds are not whole seconds; the wait is short by less than a millisecond and never more than a minute for a full window |
| `RateLimiter.AWaitCanBeShort` | crates/auth/src/ratelimit.rs:259-262 | a second and a nanosecond is told as one second |
| `RateLimiter.RefusalsAreLive` | crates/auth/src/ratelimit.rs:215-219 | a refusal names a bucket that is live at the refused stamp and resets within a minute plus the skew |
| `RateLimiter.Limiter.Apply` | crates/auth/src/ratelimit.rs:199-225 | sweeps when due, then counts every rule or none |
| `JsonlLog.ReadTail` | crates/gateway/src/jsonl.rs:74-108 | for every file, limit and block size of at least 1, the result is the first `limit` of the reversed non-empty lines of the whole file; a read that fails costs at most the oldest line returned and what lies before it |
| `JsonlLog.NothingRecentIsLost` | crates/gateway/src/jsonl.rs:42-59 | over every run of completed appends, failed renames included, the rotated file's lines then the live file's form a suffix of the history, in order |
| `JsonlLog.FilesHoldTheNewestLines` | crates/gateway/src/jsonl.rs:42-59 | the two files hold two adjacent runs of lines that end at the newest append |
| `JsonlLog.LiveFileIsBounded` | crates/gateway/src/jsonl.rs:47-50 | when a rename succeeds the live file passes 5 MiB by at most its last line |
| `JsonlLog.WrittenReadsBack` | crates/gateway/src/jsonl.rs:56-56 | a file of appended lines reads back as those lines, newest first |
| `JsonlLog.Log.Append` | crates/gateway/src/jsonl.rs:42-59 | rotates a file over the threshold, then appends one line |
| `SyncPlay.SameVersionSameShow` | crates/gateway/src/syncplay.rs:54-88 | two snapshots of one group with one version, stamped in any order, agree on host, item, roster and transport; their playheads agree while paused, and while playing differ by exactly the time between them if and only if neither is held back at zero, which none stamped after the last command is |
| `SyncPlay.PlayheadIsPlayingTime` | crates/gateway/src/syncplay.rs:310-352 | over every run, with stamps in any order, the playhead is a clock that runs whenever the group plays, held back at zero: stamping lazily loses nothing |
| `SyncPlay.LaterPlayheadIsExact` | crates/gateway/src/syncplay.rs:310-352 | seen from no earlier than any request, the playhead is that clock itself |
| `SyncPlay.GroupsAreKept` | crates/gateway/src/syncplay.rs:151-352 | in every reachable state no group is empty, its subs are distinct and its host is one of them |
| `SyncPlay.PruningHandsOver` | crates/gateway/src/syncplay.rs:151-170 | pruning keeps exactly the live members, a live host or else the earliest-joined live member, and moves the version once exactly when someone went |
| `SyncPlay.DropIdle` | crates/gateway/src/syncplay.rs:152-169 | removing the idle one at a time with a handover each gives the pruned group |
| `SyncPlay.StepKeepsShow` | crates/gateway/src/syncplay.rs:243-352 | a version never falls, and while it stands nothing shown changes |
| `SyncPlay.StepStaysInStep` | crates/gateway/src/syncplay.rs:310-352 | every request keeps transport and reference clock in step |
| `SyncPlay.Syncplay.PruneIdle` | crates/gateway/src/syncplay.rs:151-170 | prunes every group and drops the empty ones |
| `SyncPlay.Syncplay.CreateGroup` | crates/gateway/src/syncplay.rs:199-241 | a new group is paused at zero with its creator as host |
| `SyncPlay.Syncplay.JoinGroup` | crates/gateway/src/syncplay.rs:243-263 | a member who joins again keeps the seat; the version moves |
| `SyncPlay.Syncplay.LeaveGroup` | crates/gateway/src/syncplay.rs:265-286 | the last member out drops the group; a leaving host hands over to the earliest-joined |
| `SyncPlay.Syncplay.PollGroup` | crates/gateway/src/syncplay.rs:289-305 | a poll shows the snapshot and marks only the caller alive |
| `SyncPlay.Syncplay.SteerGroup` | crates/gateway/src/syncplay.rs:310-352 | a command by a member stamps the playhead, given or current, and sets the transport; a seek without a position changes nothing |
| `SuggestionPicks.ServedListIsFit` | crates/gateway/src/suggestions.rs:1198-1385 | whatever rows TMDB sends, every served list has at most twenty items, the personalized ones first, nothing the household filter would remove, and nothing twice |
| `SuggestionPicks.Dedupe` | crates/gateway/src/suggestions/tmdb.rs:178-201 | the loop over the rows keeps the first row of each id other than zero, if it is released |
| `SuggestionPicks.DedupedKeepsTheFirst` | crates/gateway/src/suggestions/tmdb.rs:178-201 | an id is kept if and only if its first row is released: a later row never replaces it |
| `SuggestionPicks.DedupedIsDistinct` | crates/gateway/src/suggestions/tmdb.rs:178-201 | no id is kept twice |
| `SuggestionPicks.EveryPickIsAccountedFor` | crates/gateway/src/suggestions.rs:911-1055 | a validation pass accepts only distinct and safe items, feeds back exactly as many picks as it counted dropped, and loses no pick unless it filled the list |
| `SuggestionPicks.MergedIsFit` | crates/gateway/src/suggestions.rs:1243-1251 | merging the retry keeps the first pass in front and the list fit |
| `SuggestionPicks.SafeMeansUnrelated` | crates/gateway/src/suggestions.rs:142-209 | a safe item shares no id and no full title with anything rejected or owned, and is no other cut of an owned title |
| `SuggestionPicks.Validate` | crates/gateway/src/suggestions.rs:911-1055 | the two passes over the picks, with their early exits, judge every pick as specified |
| `SuggestionPicks.TakeFromPool` | crates/gateway/src/suggestions.rs:923-971 | the title checks and the pool pass |
| `SuggestionPicks.TakeLookedUp` | crates/gateway/src/suggestions.rs:987-1054 | the lookup pass |
| `SuggestionPicks.MergeRetry` | crates/gateway/src/suggestions.rs:1243-1251 | the merge loop appends the new ids until the list is full |
| `RecentlyShown.NothingShownIsLost` | crates/gateway/src/suggestions.rs:344-373 | while a key is kept, its list is the first 150 entries of the duplicate-free, newest-first history of everything recorded for it |
| `RecentlyShown.CutIsInvisible` | crates/gateway/src/suggestions.rs:360-369 | cutting the older list at 150 before a batch is put on top loses nothing |
| `RecentlyShown.TableIsBounded` | crates/gateway/src/suggestions.rs:370-373 | one list per key, at most 200 keys, and what was just recorded is never what is dropped |
| `RecentlyShown.Merge` | crates/gateway/src/suggestions.rs:348-369 | the two loops put the titled items in front, each id once, and fill up to 150 |
| `RecentlyShown.Recent.RecordShown` | crates/gateway/src/suggestions.rs:344-373 | stores the merged list in the key's place and evicts the least recently read keys |
| `RecentlyShown.Recent.RecentlyShown` | crates/gateway/src/suggestions.rs:331-341 | returns the list and marks the key as recently used |
| `DotSegments.RemoveDotSegments` | crates/gateway/src/app.rs:156-188 | for every rooted path the answer is the WHATWG path state's result when there is something to rewrite, and nothing when that result is the path itself |
| `DotSegments.StandardIsClean` | crates/gateway/src/app.rs:156-188 | the standard's result has no backslash and no dot segment in any spelling, starts at the root and is its own result |
| `DotSegments.RewrittenPathIsClean` | crates/gateway/src/app.rs:157-169 | a rewritten path is clean exactly when it was rooted or had no dot segment |
| `DotSegments.SecondPassIsIdle` | crates/gateway/src/app.rs:156-188 | a second pass finds nothing to do |
| `DotSegments.AnUnrootedPathKeepsItsDots` | crates/gateway/src/app.rs:157-169 | a path that does not start with a slash, which a request target never yields, keeps its dot segment |

## Left out

- FeedbackRoutes.JsonStore.Update: a write is atomic; a partly written file and a request cancelled inside a write are not modelled.
- Stores.ReloadKeepsTheIds: the order of members in the file is not modelled (the index is a map), nor are rows that do not parse as id and title.
- KeyedLocks.MutualExclusion: safety only; that a waiting task is eventually served is left to the runtime's scheduler.
- SingleFlights.OneUnfinishedCallPerKey: a flight whose task panics, which makes its callers panic too, is not modelled.
- Membership.ServerDb.RedeemInvite: the rollback after a lost last use is not reachable under the write lock and is not modelled; codes are represented by their hashes.
- DevicePairing.LinkCodes.ClaimCode: trimming, upper-casing and the shape of codes and device fields are not modelled; codes are those that passed the check.
- DevicePairing.OneClaimOneToken: assumes a drawn code was never drawn before; eight random letters are not modelled.
- DeviceTokens.TokenTable.Verify: decryption, kids, audience and issuer checks are one input, the claims a token decrypts to.
- StreamToken.OnlySignedTokensVerify: which decimals denote a finite double is a parameter, and the reader ignores the private first key by which serde_json carries raw values.
- Stream-token time window (`enforce_time_window`): a chain of comparisons on 64-bit numbers, and its behaviour at overflow depends on the build.
- RateLimiter.Limiter.Apply: the client address and its trust headers are inputs; digests of identities are given as text.
- JsonlLog.ReadTail: the lossy decoding of each line from UTF-8 is not modelled; lines are bytes.
- SyncPlay.PlayheadIsPlayingTime: positions are reals before rounding to three decimals; the order of groups in a list and the validation of titles and ids are not modelled.
- SuggestionPicks.ServedListIsFit: the model call, prompts, costs, shuffling, the recommender path and availability tags are not modelled; the retry is taken whenever the caller offers one.
- SuggestionPicks.Validate: TMDB answers are given per lookup position, so their concurrency does not show; reasons, posters and overviews are not carried.
- PlexGate.Gate.TokenLive: what other tasks write meanwhile is an input; the probe lock that keeps them from probing the same token is in KeyedLocks.
- HTTP handlers, headers, status bodies, logging and CORS: plumbing around the state steps.
- HMAC, AES-GCM, HKDF, SHA-256 and randomness: functions or fresh values.
- Plex, WorkOS, TMDB and recommender clients: inputs, or absent where only mirrored to.
- Watchlists, policies and API keys: each is one update of one store, with no rollback and no second store to agree with.
