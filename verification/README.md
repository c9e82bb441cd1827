# A verified model of the waiting room

`waiting_room` holds visitors of a busy page in a queue kept in Redis, admits them at a bounded rate
and up to a bounded number at a time, gives an admitted visitor a signed single-use ticket, and
swaps the ticket for a reusable pass. Five Lua scripts, two pipelines and a few single commands act
on the state of one room; any number of worker processes interleave them.

The model takes each script as one atomic step on a value, `Room`, and proves what holds after
every step and over every run:

- `Types`, `ZSet`, `Scripts`: the data of a room, the queue as a sorted set, and each script as a
  function on the room.
- `Store`: the scripts as they run, in place and with their loops and early returns, each proved to
  do what its function says.
- `Ticks`: what a tick admits and leaves in the bucket, in the numbers of the room and its limits, and
  what the kill switch stops.
- `Runs`, `Invariants`, `Slots`, `Sessions`: sequences of steps at arbitrary server times, what every
  reachable room satisfies, when queue, slots and hashes agree exactly, and what callers are told.
- `Rate`, `Strategies`: the token bucket. A potential (what the bucket would hold if refilled up to
  now) bounds admissions over every stretch of every run.
- `Fairness`, `Estimate`, `Waiter`: order, progress, the wait estimate, and waiters who keep polling.
- `Exchange`, `SingleUse`, `Passes`, `Lifetimes`, `Gate`: tickets and passes around the room with a
  log of what happened, the ticket's single use, the passes against the slots and the capacity, and
  the gate that lets requests in, with other workers' steps between its own.
- `Tokens`, `RateLimit`, `Flush`: tokens as text, the per-key fixed-window limiter, and the pattern a
  flush scans for.
- `Answers`: what a visitor is told, and exactly when, by an attempt to get a ticket, by redeeming, by
  joining and by the gate.
- `Staging`, `Scenarios`: whole runs of one small room that go beyond the exact conditions proved
  elsewhere.

Conventions. Session ids are 32 hexadecimal digits (`waiting_room/core/_types.py:16`), so a session
is the number they denote and Redis's byte order on equal scores is the order of numbers. Times are
integer milliseconds. Each step carries the time of the Redis server, at which keys past their time
to live are gone (alive up to and including the expiry instant), and the caller's own time; theorems
that need them to agree say `OneClock` or `Synchronous`, and `Prompt` bounds the lags between a
worker's clock at the check of a ticket and the server's at the claim of its nonce. Tokens in the bucket and scores are reals.

## What the code does not do as written about

- Abandoning a session "so the slot frees up" (`waiting_room/core/engine.py:369-376`) does not free a
  slot: `AbandonKeepsSlot`. Its hash is deleted, so an admitted session can then join the queue as
  well: in every room by the run of `SlotHolderQueuesAgain`, and exactly by such joins
  (`ApartIffNeverRejoins`).
- `hold_admission` is documented to return False when the slot is gone
  (`waiting_room/core/interfaces.py:95-100`). It returns whether the deadline changed, so a redeem is
  also refused when the deadline happens to be the new one already (`RefusedThoughHeld`, reached in
  `RefusedInTheMillisecondOfTheTick`).
- Its EXPIRE runs whatever the slot. A ticket redeemed while its session queues again resets the
  waiter's time to live to the shorter one of passes; an active waiter can then be popped without
  metadata and dropped, as in the run of `ActiveWaiterIsDropped`. `HoldMustBeLong` gives the exact
  condition.
- A pass still verifies at the very instant of its expiry second, when its slot may have lapsed;
  `LastInstant` says for which passes and that there is no other such moment. The capacity theorem
  therefore speaks of passes strictly before it.
- A slot that lapsed but was not purged can be revived by redeeming its ticket while the session
  queues again; the tick that returns the session then cuts it to the grace window
  (`RevivedSlotIsCut`), and passes can outnumber the capacity (`ThreePassesForTwoSlots`). Every pass in
  date keeps a slot that lasts as long if and only if no tick returns a session whose pass is good
  for longer than the grace window (`CoveredIffNeverCuts`); and then passes stay within the capacity.
  That is so as long as no session joins that holds a slot and has no hash, and always when the grace
  window is at least as long as a pass.
- A ticket is not single-use without a bound on how clocks and delays vary. Its nonce is kept for the
  time left at the check, rounded up past the expiry, so a second claim that lags three milliseconds
  more behind its worker's clock than the first one can find the nonce gone, by a delay or by a clock
  that was ahead the first time. A difference of two milliseconds is the exact bound
  (`SingleUseExactly`).
- A flush takes the keys of another room whose name starts with the flushed name, a closing brace and
  a colon, and of no other (`FlushHitsRooms`).
- The backend strips trailing colons from the key prefix and the signer does not, so a flush takes
  the nonces along exactly when the configured prefix has none (`FlushHitsNonces`).

## Model

| member | source | states |
|---|---|---|
| Store.RoomStore.Enqueue | waiting_room/core/lua/enqueue.lua:19-57 | the script with its early returns leaves the room and the reply that the specification of joining gives |
| Store.RoomStore.Position | waiting_room/core/lua/position.lua:14-30 | rank, size, slot and closed flag, and the liveness refresh for queued sessions only |
| Store.RoomStore.FreeLapsed | waiting_room/core/lua/admit_batch.lua:29-38 | the loop over lapsed slots frees exactly those at or before now and marks the hashes that exist |
| Store.RoomStore.ReadBucket | waiting_room/core/lua/admit_batch.lua:61-71 | tokens on hand: full without a bucket, else refilled from the time since the last write, never above the size |
| Store.RoomStore.PopAndAdmit | waiting_room/core/lua/admit_batch.lua:77-95 | popping and the loop over members: prefix gone from queue and last-seen set, slots and marks for those with metadata, returned in order |
| Store.RoomStore.AdmitBatchScript | waiting_room/core/lua/admit_batch.lua:21-105 | the whole tick, with the narrowing of the batch step by step, does what its specification says |
| Store.RoomStore.AdmitBatch | waiting_room/core/storage/redis_backend.py:180-204 | an empty batch does not even purge |
| Store.RoomStore.ReleaseAdmission | waiting_room/core/lua/release.lua:7-11 | the slot is freed and the hash marked if there was a slot |
| Store.RoomStore.DropEach | waiting_room/core/lua/reclaim.lua:10-15 | the loop removes the idle sessions and their hashes and counts those that queued |
| Store.RoomStore.ReclaimExpired | waiting_room/core/lua/reclaim.lua:10-25 | idle waiters and lapsed slots go, and both are counted |
| Store.RoomStore.HoldAdmission | waiting_room/core/storage/redis_backend.py:262-275 | the deadline moves only for a member of the admitted set; the hash's time to live is reset in any case |
| Store.RoomStore.RemoveSession | waiting_room/core/storage/redis_backend.py:206-215 | queue, last-seen entry and hash of the session go; the reply is about the queue |
| Store.RoomStore.ClaimNonce | waiting_room/core/tokens.py:203-211 | a nonce is taken only if it is not there, for the given seconds |
| Store.RoomStore.FlushRoom | waiting_room/core/storage/redis_backend.py:317-332 | everything stored for the room goes, nonces and bucket included |
| Ticks.ClosedTickAdmitsNobody | waiting_room/core/lua/admit_batch.lua:29-43 | a tick of a closed room returns nobody, leaves queue, last-seen set and bucket alone and adds no slot; it only frees the lapsed ones |
| Ticks.ClosedRoomAdmitsNobody | waiting_room/core/lua/enqueue.lua:21-24 | over every run from the moment the switch is engaged until it is released or the room flushed, nobody is admitted and every enqueue is told -1 and changes nothing |
| Ticks.SwitchDecides | waiting_room/core/lua/admit_batch.lua:40-43 | over every run the room is closed exactly as the last step that engages, releases or flushes the switch says |
| Ticks.TickPopsAsManyAsItMay | waiting_room/core/lua/admit_batch.lua:40-81 | a tick pops the first members of the queue, as many as switch, batch, free slots and tokens (a bucket holds at most burst, rate or one) allow, and not one more |
| Ticks.TickLeavesInBucket | waiting_room/core/lua/admit_batch.lua:58-103 | what an open room with waiters writes to its bucket: the tokens on hand less one for each session returned, and a key that lives for the fill time of an empty bucket, rounded up, and a minute |
| Ticks.OtherTicksLeaveBucket | waiting_room/core/lua/admit_batch.lua:40-50 | no other tick touches the bucket |
| Invariants.StepInv | waiting_room/core/lua/admit_batch.lua:29-103 | every step of any worker at any time keeps the room invariant |
| Invariants.EveryReachableRoom | waiting_room/core/interfaces.py:64-71 | in every reachable room the queue is sorted without duplicates, the last-seen set has the same sessions, slots never exceed the capacity, a hash saying "admitted" has a slot, and the bucket is between empty and full |
| Slots.QueueAndSlotsAgree | waiting_room/core/lua/enqueue.lua:26-46 | as long as no session in the admitted set loses its hash, nobody both queues and holds a slot, every slot has a hash, and "admitted" in a hash means exactly a slot |
| Slots.AgreeIffHashesKept | waiting_room/core/lua/enqueue.lua:26-46 | over every run, queue, slots and hashes agree at every moment if and only if no session in the admitted set loses its hash |
| Slots.StaysApart | waiting_room/core/lua/enqueue.lua:26-46 | a step keeps queue and slots apart if and only if it is no enqueue of a session with a slot and without a hash; after one they share exactly that session |
| Slots.ApartIffNeverRejoins | waiting_room/core/lua/enqueue.lua:26-46 | over every run nobody ever both queues and holds a slot if and only if there is no such enqueue |
| Slots.SlotHolderQueuesAgain | waiting_room/core/engine.py:369-376 | with any limits: join, be admitted, abandon, join again, and the session both queues and holds a slot |
| Slots.LoneWaiterIsAdmitted | waiting_room/core/lua/admit_batch.lua:48-95 | a first tick admits a lone waiter whatever the limits |
| Sessions.EnqueueReplies | waiting_room/core/interfaces.py:42-49 | exactly when each reply is given; only a positive one changes anything, and what it leaves: place, last-seen time, hash, queue in order with at most one new entry; nobody queued loses the place or the score, no session of another client is taken over |
| Sessions.EnqueueIsIdempotent | waiting_room/core/interfaces.py:42-49 | joining again keeps the queue and gives the same place |
| Sessions.PollReports | waiting_room/core/interfaces.py:52-57 | a poll moves nobody, reports the true place, the size, the switch, and exactly whether the session holds a slot and does not queue; it refreshes only the session, and only if it queues |
| Sessions.AbandonKeepsSlot | waiting_room/core/engine.py:369-376 | abandoning takes the session out of queue, last-seen set and hashes, but not its slot, and nothing else changes |
| Sessions.ReclaimCounts | waiting_room/core/lua/reclaim.lua:10-25 | the returned count is the number of waiters plus slots that are gone |
| Sessions.ReclaimDrops | waiting_room/core/lua/reclaim.lua:10-25 | exactly the waiters last seen at or before the cutoff go, with their hashes, and exactly the lapsed slots, whose hashes say so |
| Sessions.ReleaseFreesOnce | waiting_room/core/lua/release.lua:7-11 | a release frees exactly its slot and marks its hash, and a second one does nothing |
| Rate.StepCharges | waiting_room/core/lua/admit_batch.lua:58-103 | a serving tick admits at most the tokens on hand and charges one for each; no other step touches the bucket |
| Rate.RateBound | waiting_room/core/lua/admit_batch.lua:1-5 | with any interleaving and any timestamps, each stretch of a run in which the bucket key stays admits at most burst, rate or one, whichever is largest, plus the rate times the sum of forward clock jumps |
| Rate.WindowRateBound | waiting_room/core/lua/admit_batch.lua:58-103 | on one nondecreasing clock every window of every flush-free run, key expiry included, admits at most burst, rate or one, whichever is largest, plus rate times the length of the window |
| Rate.ExpiredIsFull | waiting_room/core/lua/admit_batch.lua:98-103 | the bucket key expires only when the bucket has refilled completely |
| Rate.ExpiryInvisible | waiting_room/core/lua/admit_batch.lua:98-103 | a room whose bucket key expires and one whose key never does make the same admissions on every run |
| Rate.ExpiryInvisibleFromStart | waiting_room/core/lua/admit_batch.lua:64-71 | the same from an empty room |
| Strategies.TimeBucketAdmission.Create | waiting_room/core/strategies.py:26-35 | a rate that is not positive is refused, otherwise the bucket starts full with the largest of burst, rate and one |
| Strategies.SameSize | waiting_room/core/lua/admit_batch.lua:62 | the shared bucket and the in-process one have the same size |
| Strategies.TimeBucketAdmission.SlotsAvailable | waiting_room/core/strategies.py:37-49 | the in-process bucket in place: refill, truncate, cap by the queue, charge |
| Strategies.SharedRefinesReference | waiting_room/core/lua/admit_batch.lua:48-103 | over every run each unhindered tick of the shared bucket admits exactly what the in-process bucket answers at the same instants |
| Strategies.FreshRoomRefinesReference | waiting_room/core/strategies.py:18-49 | the same for a new room against a new in-process bucket |
| Strategies.CapacityTickRefinesStrategy | waiting_room/core/strategies.py:60-63 | with a capacity and no rate, an unhindered tick admits exactly what the capacity strategy allows |
| Fairness.StepQueue | waiting_room/core/lua/admit_batch.lua:78-81 | every step inserts one entry, pops a prefix, filters, or leaves the queue alone |
| Fairness.TickConserves | waiting_room/core/lua/admit_batch.lua:75-95 | popped sessions split exactly into returned ones, each once and with a slot until the grace window ends, and ones without metadata; all others keep slot and hash unless lapsed |
| Fairness.ScoresStay | waiting_room/core/lua/enqueue.lua:36-46 | no step changes the score of a session that stays queued |
| Fairness.NobodyOvertakes | waiting_room/core/lua/enqueue.lua:38-46 | of two sessions that stay queued the one ahead stays ahead, over every run |
| Fairness.PlacesNeverIncrease | waiting_room/core/lua/enqueue.lua:36-46 | with fresh scores above the queued ones, a waiter's place never gets worse |
| Fairness.Progress | waiting_room/core/lua/admit_batch.lua:48-81 | the place of a waiter and the helpful ticks so far never add up to more than its first place |
| Fairness.LeavesInTime | waiting_room/core/lua/admit_batch.lua:48-81 | a waiter at position p is out of the queue after at most p ticks that find the room open, a free slot and one more token |
| Fairness.NeverAdmittedTwice | waiting_room/core/lua/admit_batch.lua:78-95 | a returned session is returned once, and again only after an enqueue put it back |
| Estimate.EstimateWait | waiting_room/core/engine.py:458-464 | the estimate times the rate is the position; nothing without a rate, zero without a place |
| Estimate.EverybodyAheadFirst | waiting_room/core/lua/admit_batch.lua:78-81 | by the time a waiter is admitted at least everybody not behind it has been |
| Estimate.EstimateIsBounded | waiting_room/core/engine.py:458-464 | a waiter is admitted no earlier than the estimate minus bucket size over rate, if those ahead leave only by admission |
| Waiter.JoiningIsABeat | waiting_room/core/lua/enqueue.lua:36-57 | a positive reply leaves the session queued, seen and with metadata for the whole time to live |
| Waiter.ReclaimSpares | waiting_room/core/engine.py:384-386 | a reclaim that looks back the whole time to live drops no waiter that refreshed at most ttl - 1 seconds ago |
| Waiter.TickSpares | waiting_room/core/lua/admit_batch.lua:83-90 | a tick that pops such a waiter returns it |
| Waiter.ActiveWaiterIsKept | waiting_room/core/lua/position.lua:25-29 | over every run a waiter never silent for more than ttl - 1 seconds has been admitted or is still queued with its metadata |
| Waiter.ActiveWaiterIsAdmitted | waiting_room/core/lua/admit_batch.lua:48-95 | over every run on one clock such a waiter, with fresh scores behind it, has been returned by a tick once there were as many helpful ticks as its position says |
| Waiter.HoldMustBeLong | waiting_room/core/storage/redis_backend.py:271-272 | with any limits: after a hold of a queued session, a tick that takes it out of the queue returns it if and only if the hold lasts to that tick |
| Scenarios.ActiveWaiterIsDropped | waiting_room/core/storage/redis_backend.py:271-272 | a run in which a refused late ticket cuts the hash of a waiter, and a tick within its permitted silence drops it |
| Exchange.NoEntryWithoutAdmission | waiting_room/core/engine.py:280-354 | in a fail-closed room every entry comes after the redemption, before it the minting in this room, before it the admission of the same session |
| Exchange.TicketsAreForSlots | waiting_room/core/engine.py:293-309 | a ticket is minted only for a session in the admitted set when its hash is read, whatever ran since the tick |
| SingleUse.NonceOutlives | waiting_room/core/tokens.py:196-206 | the nonce is kept beyond the expiry of the token as the checking worker's clock shows it, by at most a second |
| SingleUse.EachTicketOnePass | waiting_room/core/tokens.py:181-211 | over every flush-free run on a server's clock that never goes back, redeems interleaved and nonces expiring, a ticket yields at most one pass, provided the lags from the worker's clock at the check to the server's at the claim, clocks ahead included, differ by at most two milliseconds |
| Scenarios.SingleUseExactly | waiting_room/core/tokens.py:196-206 | that bound is exact: for lags between any lo and hi a ticket yields at most one pass in every such run if and only if hi - lo is at most two milliseconds |
| Passes.CoveredExactly | waiting_room/core/lua/admit_batch.lua:83-95 | on one clock, a step that is no flush and no hold but by redeeming leaves every pass in date and not released with a slot that lasts as long if and only if it is no tick that returns a session whose pass is good for longer than the grace window |
| Passes.CoveredIffNeverCuts | waiting_room/core/engine.py:317-344 | the same over every run of such steps |
| Passes.PassesWithinCapacity | waiting_room/core/engine.py:317-344 | and in the runs without such a tick, at every moment the sessions with a pass in date and not released all hold slots and are at most capacity many (each redeem signs its pass at the instant of the hold) |
| Passes.PassesWithinCapacityWithoutRejoining | waiting_room/core/lua/enqueue.lua:26-46 | so it is in every run of such steps in which no session joins that holds a slot and has no hash, whoever abandons or loses a hash otherwise |
| Passes.PassesWithinCapacityWithLongGrace | waiting_room/core/settings.py:109-121 | and in every run of such steps if the grace window is at least as long as a pass |
| Passes.PassesWithinCapacityPlainly | waiting_room/core/engine.py:317-344 | in particular if no session in the admitted set loses its hash by time to live or by abandoning |
| Lifetimes.PassesWithinCapacityUndisturbed | waiting_room/core/engine.py:317-344 | the capacity bound if the hashes of slots that have not lapsed stay, and no grant revives a lapsed slot of a session that lost its hash or queues again |
| Lifetimes.PassesWithinCapacityWhenFresh | waiting_room/core/settings.py:109-121 | the capacity bound if ticks pop only sessions refreshed within their time to live less the grace window, nobody abandons a slot that has not lapsed, there is no flush, and no grant revives a lapsed slot of a session that lost its hash or queues again |
| Lifetimes.HoldSound | waiting_room/core/storage/redis_backend.py:262-275 | a hold leaves no session with a slot that has not lapsed queueing or without a hash if and only if the slot was live or its session has a hash and does not queue |
| Scenarios.ThreePassesForTwoSlots | waiting_room/core/lua/admit_batch.lua:29-95 | a run on one clock with genuine tokens and without flushes after which, with two slots, three sessions carry a pass in date and none was released |
| Passes.LastInstant | waiting_room/core/tokens.py:163-165 | a pass verifies while the slot it came with has lapsed at exactly one moment, its expiry second, and exactly if it was issued on a whole second |
| Gate.RefusedThoughHeld | waiting_room/core/engine.py:327-334 | a verified ticket whose nonce was claimed is refused exactly when the slot is gone or its deadline is already the one of a pass issued now, and a slot that is there is held in any case |
| Scenarios.RefusedInTheMillisecondOfTheTick | waiting_room/core/storage/redis_backend.py:265-275 | the second case is reached: grace as long as a pass, redeemed in the millisecond of the tick; slot held, ticket spent, no pass |
| Passes.RevivedSlotIsCut | waiting_room/core/storage/redis_backend.py:265-275 | with any limits: a held slot of a session that queues again is cut to the grace window by the tick that returns the session |
| Answers.AttemptTicks | waiting_room/core/engine.py:431-444 | with nobody in between, an attempt reads what its own tick left, for a batch of a thousand or what an injected strategy allows, if that is less |
| Answers.BatchIsBounded | waiting_room/core/engine.py:431-444 | its tick returns at most a thousand sessions, and no more than the strategy allows |
| Answers.AttemptAnswers | waiting_room/core/engine.py:280-315 | exactly when an attempt is unreachable, does not find the session, waits or has a ticket, in terms of the room at the read; and all the claims of the ticket |
| Answers.TicketIsLogged | waiting_room/core/engine.py:302-315 | a ticket handed out is issued and logged last |
| Answers.LoneWaiterGetsTicket | waiting_room/core/engine.py:293-309 | a lone waiter of an open room gets its ticket by asking: admission and minting are logged in this order |
| Gate.AttemptsAreForSlots | waiting_room/core/engine.py:280-315 | a fail-closed attempt that gets a ticket is for a session holding a slot |
| Gate.Guard.TickAdmit | waiting_room/core/engine.py:431-444 | an injected strategy only narrows the batch of a thousand |
| Gate.Guard.TryAdmit | waiting_room/core/engine.py:280-315 | tick, then read, then sign, with others in between, unknown sessions and outages |
| Gate.Guard.VerifyPass | waiting_room/core/engine.py:346-354 | a pass is accepted exactly when all checks pass |
| Gate.Guard.Redeem | waiting_room/core/engine.py:317-344 | verify, claim, hold, sign in this order, with others in between, every failure and outage told apart |
| Gate.Guard.EnqueueAndRedirect | waiting_room/core/engine.py:201-259 | rate limit by the hits counted for the address, outage at either join, second join under a new id for a foreign session, closed room |
| Gate.Guard.Handle | waiting_room/adapters/django/_gate.py:79-163 | allowlist, pass, ticket, queue in this order with the failure mode applied |
| Answers.AcceptsGood | waiting_room/core/tokens.py:151-170 | a presented token is accepted exactly if it is genuine, of the purpose, in date, of this room and, if bound, of this client |
| Answers.RedeemAnswers | waiting_room/core/engine.py:317-344 | exactly when a redemption is granted or meets an outage, by ticket, nonce, outages and slot; and all the claims of the pass |
| Answers.PassIsGood | waiting_room/core/engine.py:346-354 | the pass of a redemption is good for its client exactly until its expiry second |
| Answers.JoinAnswers | waiting_room/core/engine.py:201-259 | exactly when joining is answered with too many, unavailable, through, closed or waiting, and under which session |
| Answers.WaitingIsQueued | waiting_room/core/engine.py:493-499 | who is told to wait holds a slot or queues, refreshed, with a hash for the whole time to live of waiters |
| Answers.GoodPassLetsIn | waiting_room/adapters/django/_gate.py:91-98 | a good pass lets its holder in whatever else the request carries and whatever is down, and changes nothing but the log |
| Answers.ThroughExactly | waiting_room/adapters/django/_gate.py:79-163 | whom the gate lets through, exactly, in either failure mode |
| Answers.ThroughWhenFailClosed | waiting_room/adapters/django/_gate.py:79-163 | a fail-closed gate lets through exactly the allowlisted, holders of a good pass, and those whose ticket is redeemed into one |
| Answers.OthersJoin | waiting_room/adapters/django/_gate.py:100-124 | everybody else is told what joining answers in the world the refused redemption left |
| Gate.ThroughIsLogged | waiting_room/adapters/django/_gate.py:88-124 | a fail-closed gate lets a request that is not allowlisted through only with an entry by its own pass or ticket, bound to its client |
| Gate.OnlyTheAdmittedEnter | waiting_room/adapters/django/_gate.py:88-124 | and that entry traces back over the whole run to redemption, ticket and admission |
| Tokens.Base64RoundTrip | waiting_room/core/tokens.py:43-49 | decoding the unpadded form gives every byte string back (section 5 of RFC 4648, padding of its section 3.2) |
| Tokens.EncodesSixBitDigits | waiting_room/core/tokens.py:43-44 | the encoding is that of section 5 of RFC 4648: six-bit digits of its URL-safe alphabet, highest first, with the bytes as one number |
| Tokens.SplitsAtDot | waiting_room/core/tokens.py:137 | the first dot splits payload from signature |
| Tokens.SignedTextReadsBack | waiting_room/core/tokens.py:102-155 | a signed text reads back as its claims |
| Tokens.IssuedTokenVerifies | waiting_room/core/tokens.py:92-179 | an issued token verifies exactly when in date, of the purpose, room and client asked for, and then returns the same session, room and times |
| Tokens.ReadsSignedOnly | waiting_room/core/tokens.py:132-155 | a text gives claims exactly if it is at most 1024 characters long and what follows its first dot decodes to the keyed hash of what goes before |
| Tokens.TextVerifiesExactly | waiting_room/core/tokens.py:125-179 | for every text: accepted exactly if signed and its claims are of the purpose, in date, of this room and, if bound, of this client |
| Tokens.ForgedTextIsRefused | waiting_room/core/tokens.py:144-147 | a wrong signature is refused, whatever the claims |
| Tokens.MalformedTextIsRefused | waiting_room/core/tokens.py:132-142 | so is a text that is too long or has no dot |
| RateLimit.RedisRateLimiter.Create | waiting_room/core/ratelimit.py:41-56 | a limit that is not positive is refused |
| RateLimit.RedisRateLimiter.Acquire | waiting_room/core/ratelimit.py:29-63 | one key's counter in place: count, first-hit expiry, grant up to the limit; other keys untouched |
| RateLimit.WindowsAreDisjoint | waiting_room/core/ratelimit.py:3-7 | over every run each window opens after the one before it is over, and none is extended |
| RateLimit.WindowGrantsLimit | waiting_room/core/ratelimit.py:29-63 | each window, from its first to its last instant, sees at most the limit of grants |
| RateLimit.FirstHitsAreGranted | waiting_room/core/ratelimit.py:29-63 | the count a hit gets is its number in its window, so the first hits up to the limit are granted and the others are not |
| RateLimit.CoverIsCeiling | waiting_room/core/ratelimit.py:29-35 | the number of windows covering a span is its length over the window, rounded up |
| RateLimit.IntervalBound | waiting_room/core/ratelimit.py:29-63 | any half-open interval sees at most (length over window, rounded up, plus one) times the limit grants |
| RateLimit.TwiceTheLimit | waiting_room/core/ratelimit.py:29-63 | no interval as short as the window sees more than twice the limit |
| Flush.EscapedMatchesPrefix | waiting_room/core/storage/redis_backend.py:341-342 | the escaped text followed by a star matches exactly the keys that start with the text |
| Flush.FlushHitsItsRoom | waiting_room/core/storage/redis_backend.py:317-332 | every key the backend wrote for the room is matched |
| Flush.FlushHitsExactly | waiting_room/core/storage/redis_backend.py:317-332 | for all names and keys: a key of any room is matched if and only if what follows its opening brace starts with the flushed name, a closing brace and a colon |
| Flush.FlushHitsRooms | waiting_room/core/storage/redis_backend.py:73-98 | for the keys the backend writes it is a matter of the two names alone: equal, or the other starts with the flushed name, a closing brace and a colon |
| Flush.FlushSparesOtherRooms | waiting_room/core/storage/redis_backend.py:317-332 | so for names without a closing brace no key of another room is matched |
| Flush.BracesConfuseRooms | waiting_room/core/storage/redis_backend.py:73-75 | and for every name that starts so all keys of the other room are matched |
| Flush.FlushHitsNonces | waiting_room/core/engine.py:157-162 | nonces are matched if and only if the configured prefix does not end in a colon |

## Left out

- Django views, templates, admin, settings parsing, management commands, signals: user interface and wiring.
- Metrics, events, logging, the address allowlist, proxy headers, cookie flags and redirects; the allowlist is a yes or no of the request.
- HMAC-SHA256, SHA-256 of fingerprints and JSON: the keyed hash and the payload codec are parameters, a fingerprint stands for its hash, and in `Exchange` a genuine signature is one that was issued.
- IEEE doubles and Lua's number formatting: reals and integers instead. `_next_score` (waiting_room/core/engine.py:501-505) is not modelled; where order matters, scores of new entries are assumed above the queued ones (`FreshScores`).
- The clock has a resolution of a millisecond. `Passes` takes the hold of a slot and the signing of its pass to happen at the same instant; the check of a ticket and the claim of its nonce may lie apart.
- The rate limiter's counters are not part of the world of `Gate`: the counter found for the client's address is given with each request, and answered by the limiter's own `Hit`.
- Hash fields that no script reads (enqueued_at, user_id, admitted_at).
- The scan of a flush in batches: a flush is one step. `update_session` and `SessionStore`, which the engine does not call.
- `CompositeAdmission` and the throttle on poll-driven ticks: a minimum and a timer that only add easy members.
- A signer or limiter without Redis, which always answers yes.
- Redis errors other than a whole step failing; the outcome of a step whose reply is lost is not modelled.
