/** What each Lua script and each pipeline of the storage backend does to a room, as functions
  on its value. `clock` is the time of the Redis server, the other times come from the caller. */
module Scripts {
  import opened Types
  import opened ZSet

  // ----- keys with a time to live

  /** What a script sees: keys whose expiry instant has passed are gone. */
  function Expire(r: Room, clock: int): Room {
    r.(sessions := LiveSessions(r.sessions, clock),
       bucket := LiveBucket(r.bucket, clock),
       nonces := LiveNonces(r.nonces, clock))
  }

  function LiveSessions(m: map<Sid, Meta>, clock: int): map<Sid, Meta> {
    map s | s in m && clock <= m[s].expireAt :: m[s]
  }

  function LiveBucket(b: Option<Bucket>, clock: int): Option<Bucket> {
    if b.Some? && clock <= b.value.expireAt then b else None
  }

  function LiveNonces(m: map<Nonce, int>, clock: int): map<Nonce, int> {
    map x | x in m && clock <= m[x] :: m[x]
  }

  /** EXPIRE: nothing for a missing key, and a deletion when the time to live is not positive. */
  function Touch(m: map<Sid, Meta>, sid: Sid, clock: int, ttl: int): map<Sid, Meta> {
    if sid !in m then m
    else if ttl <= 0 then m - {sid}
    else m[sid := m[sid].(expireAt := clock + ttl * 1000)]
  }

  /** HSET of the state field, on the hashes that exist. */
  function Mark(m: map<Sid, Meta>, who: set<Sid>, status: Status): map<Sid, Meta> {
    map s | s in m :: if s in who then m[s].(status := status) else m[s]
  }

  // ----- enqueue.lua

  /** The reply, and the room afterwards. */
  function Enqueue(r: Room, clock: int, sid: Sid, score: real, ttl: int, now: int, owner: Owner, check: bool): (Room, int)
  {
    if r.closed then (r, -1)
    else if sid in r.sessions && check && r.sessions[sid].owner != owner then (r, -2)
    else if sid in r.sessions && sid in r.admitted then (r, 0)
    else if sid in r.sessions && sid in Sids(r.queue) then
      (r.(seen := r.seen[sid := now], sessions := Touch(r.sessions, sid, clock, ttl)), Place(r.queue, sid) + 1)
    else
      var q := AddNX(r.queue, Entry(sid, score));
      var hashes := r.sessions[sid := Meta(Queued, owner, clock)];
      (r.(queue := q, seen := r.seen[sid := now], sessions := Touch(hashes, sid, clock, ttl)), Place(q, sid) + 1)
  }

  // ----- position.lua

  datatype PositionReply = PositionReply(position: int, size: nat, admitted: bool, closed: bool)

  function Poll(r: Room, clock: int, sid: Sid, now: int, ttl: int): (Room, PositionReply) {
    if sid !in Sids(r.queue) then (r, PositionReply(0, |r.queue|, sid in r.admitted, r.closed))
    else
      var reply := PositionReply(Place(r.queue, sid) + 1, |r.queue|, false, r.closed);
      if ttl > 0 then (r.(seen := r.seen[sid := now], sessions := Touch(r.sessions, sid, clock, ttl)), reply)
      else (r, reply)
  }

  // ----- admit_batch.lua

  function Lapsed(admitted: map<Sid, int>, now: int): set<Sid> {
    set s | s in admitted && admitted[s] <= now
  }

  /** Slots whose deadline has passed are freed and their sessions marked. */
  function Purge(r: Room, now: int): Room {
    var gone := Lapsed(r.admitted, now);
    r.(admitted := r.admitted - gone, sessions := Mark(r.sessions, gone, Expired))
  }

  /** The largest of burst, rate and one. */
  function BucketSize(l: Limits): (b: real)
    ensures b >= 1.0 && b >= l.rate && b >= l.burst as real
    ensures b == 1.0 || b == l.rate || b == l.burst as real
  {
    MaxReal(MaxReal(l.burst as real, l.rate), 1.0)
  }

  function Refill(l: Limits, ms: int): real {
    Max(0, ms) as real / 1000.0 * l.rate
  }

  /** Tokens on hand at `now`; a room without a bucket starts with a full one. */
  function Available(l: Limits, b: Option<Bucket>, now: int): real {
    match b
    case None => BucketSize(l)
    case Some(b) => MinReal(BucketSize(l), b.tokens + Refill(l, now - b.ts))
  }

  /** Milliseconds after which an untouched bucket is full again, and a minute more. */
  function BucketTtl(l: Limits): int
    requires l.rate > 0.0
  {
    Ceil(BucketSize(l) / l.rate * 1000.0) + 60000
  }

  /** How many sessions a serving tick pops; negative when the room is over its capacity. */
  function Slots(l: Limits, r: Room, maxN: int, now: int): (n: int)
    ensures n <= |r.queue| && n <= maxN
    ensures l.capacity > 0 ==> n <= l.capacity - |r.admitted|
    ensures l.rate > 0.0 ==> n <= Available(l, r.bucket, now).Floor
  {
    var n := Min(maxN, |r.queue|);
    var n := if l.capacity > 0 then Min(n, l.capacity - |r.admitted|) else n;
    if l.rate > 0.0 then Min(n, Available(l, r.bucket, now).Floor) else n
  }

  predicate Serves(r: Room, maxN: int) {
    !r.closed && maxN > 0 && r.queue != []
  }

  /** The members that still have metadata, in queue order. */
  function Present(popped: seq<Entry>, m: map<Sid, Meta>): seq<Sid> {
    if popped == [] then []
    else if popped[0].sid in m then [popped[0].sid] + Present(popped[1..], m)
    else Present(popped[1..], m)
  }

  /** Pops the first `n` members and admits those that have metadata. */
  function Admit(l: Limits, r: Room, n: nat, now: int): (Room, seq<Sid>)
    requires n <= |r.queue|
  {
    var popped := r.queue[..n];
    var who := Sids(popped) * r.sessions.Keys;
    (r.(queue := r.queue[n..],
        seen := r.seen - Sids(popped),
        sessions := Mark(r.sessions, who, Admitted),
        admitted := r.admitted + map s | s in who :: now + l.grace),
     Present(popped, r.sessions))
  }

  lemma NothingAdmitted(l: Limits, r: Room, now: int)
    ensures Admit(l, r, 0, now) == (r, [])
  {
    var none: set<Sid> := Sids(r.queue[..0]) * r.sessions.Keys;
    assert none == {};
    assert r.seen - Sids(r.queue[..0]) == r.seen;
    assert Mark(r.sessions, none, Admitted) == r.sessions;
    assert r.admitted + (map s | s in none :: now + l.grace) == r.admitted;
  }

  function Persist(l: Limits, r: Room, clock: int, now: int, tokens: real): Room {
    if l.rate > 0.0 then r.(bucket := Some(Bucket(tokens, now, clock + BucketTtl(l)))) else r
  }

  /** One admission tick: the room afterwards and the sessions returned. */
  function Tick(l: Limits, r: Room, clock: int, maxN: int, now: int): (Room, seq<Sid>) {
    var r := Purge(r, now);
    if !Serves(r, maxN) then (r, [])
    else
      var (r', out) := Admit(l, r, Max(0, Slots(l, r, maxN, now)), now);
      (Persist(l, r', clock, now, Available(l, r.bucket, now) - |out| as real), out)
  }

  // ----- release.lua, reclaim.lua and the pipelines

  function Release(r: Room, sid: Sid): (Room, bool) {
    if sid in r.admitted then
      (r.(admitted := r.admitted - {sid}, sessions := Mark(r.sessions, {sid}, Released)), true)
    else (r, false)
  }

  /** Sessions last seen at or before a cutoff given in milliseconds. */
  function Idle(seen: map<Sid, int>, cutoff: int): set<Sid> {
    set s | s in seen && seen[s] * 1000 <= cutoff
  }

  function DropIdle(r: Room, cutoff: int): Room {
    var idle := Idle(r.seen, cutoff);
    r.(queue := Without(r.queue, idle), seen := r.seen - idle, sessions := r.sessions - idle)
  }

  function Reclaim(r: Room, cutoff: int, now: int): (Room, nat) {
    var r' := DropIdle(r, cutoff);
    (Purge(r', now), |Idle(r.seen, cutoff) * Sids(r.queue)| + |Lapsed(r.admitted, now)|)
  }

  /** ZADD XX CH, then EXPIRE whatever its outcome. The reply says whether a score changed. */
  function Hold(r: Room, clock: int, sid: Sid, now: int, seconds: int): (Room, bool) {
    var deadline := now + seconds * 1000;
    var held := if sid in r.admitted then r.admitted[sid := deadline] else r.admitted;
    (r.(admitted := held, sessions := Touch(r.sessions, sid, clock, seconds)),
     sid in r.admitted && r.admitted[sid] != deadline)
  }

  function Remove(r: Room, sid: Sid): (Room, bool) {
    (r.(queue := Without(r.queue, {sid}), seen := r.seen - {sid}, sessions := r.sessions - {sid}),
     sid in Sids(r.queue))
  }

  /** SET NX EX of a nonce. */
  function Claim(r: Room, clock: int, nonce: Nonce, ex: int): (Room, bool) {
    if nonce in r.nonces then (r, false)
    else (r.(nonces := r.nonces[nonce := clock + ex * 1000]), true)
  }
}
