/** The in-process token bucket, and the shared bucket of the admission tick as its refinement. */
module Strategies {
  import opened Types
  import opened ZSet
  import opened Scripts
  import opened Runs
  import opened Invariants
  import opened Rate
  import opened Fairness

  /** State of the in-process bucket. */
  datatype Reference = Reference(tokens: real, last: int)

  function Truncate(x: real): int { if x < 0.0 then -((-x).Floor) else x.Floor }

  /** The tokens after a refill. */
  function ToppedUp(size: real, rate: real, ref: Reference, now: int): real {
    MinReal(size, ref.tokens + (now - ref.last) as real / 1000.0 * rate)
  }

  /** One request for slots. */
  function Take(size: real, rate: real, ref: Reference, queueSize: int, now: int): (Reference, int) {
    if queueSize <= 0 then (ref, 0)
    else
      var tokens := ToppedUp(size, rate, ref, now);
      var available := Min(Truncate(tokens), queueSize);
      (Reference(tokens - available as real, now), available)
  }

  /** The largest of burst, rate and one. */
  predicate Largest(size: real, burst: int, rate: real) {
    size >= burst as real && size >= rate && size >= 1.0 && (size == burst as real || size == rate || size == 1.0)
  }

  /** The shared bucket and the in-process one have the same size. */
  lemma SameSize(l: Limits, size: real)
    ensures Largest(size, l.burst, l.rate) <==> size == BucketSize(l)
  {
  }

  class TimeBucketAdmission {
    const rate: real
    const capacity: real
    var tokens: real
    var last: int

    /** A rate that is not positive is refused. */
    static method Create(admitPerSecond: real, burst: int, now: int) returns (bucket: Option<TimeBucketAdmission>)
      ensures bucket.Some? <==> admitPerSecond > 0.0
      ensures bucket.Some? ==> fresh(bucket.value) && bucket.value.rate == admitPerSecond
                               && Largest(bucket.value.capacity, burst, admitPerSecond)
                               && bucket.value.tokens == bucket.value.capacity && bucket.value.last == now
    {
      if admitPerSecond <= 0.0 {
        return None;
      }
      var made := new TimeBucketAdmission(admitPerSecond, burst, now);
      return Some(made);
    }

    constructor (admitPerSecond: real, burst: int, now: int)
      ensures rate == admitPerSecond && Largest(capacity, burst, admitPerSecond)
      ensures tokens == capacity && last == now
    {
      rate := admitPerSecond;
      capacity := MaxReal(MaxReal(burst as real, admitPerSecond), 1.0);
      tokens := MaxReal(MaxReal(burst as real, admitPerSecond), 1.0);
      last := now;
    }

    method SlotsAvailable(queueSize: int, now: int) returns (available: int)
      modifies this
      ensures (Reference(tokens, last), available) == Take(capacity, rate, Reference(old(tokens), old(last)), queueSize, now)
    {
      hide Truncate;
      if queueSize <= 0 {
        return 0;
      }
      var elapsed := now - last;
      last := now;
      tokens := MinReal(capacity, tokens + elapsed as real / 1000.0 * rate);
      available := Truncate(tokens);
      available := Min(available, queueSize);
      tokens := tokens - available as real;
    }
  }

  /** Every tick of the run finds the room open and unlimited, with a batch as large as the queue
    and metadata for every waiter. */
  ghost predicate Unhindered(l: Limits, r: Room, es: seq<Event>)
    decreases es
  {
    es == [] ||
    (!es[0].op.Flush? &&
     (es[0].op.Tick? ==>
        var x := Expire(r, es[0].clock);
        !x.closed && es[0].op.maxN >= |x.queue| && Sids(x.queue) <= x.sessions.Keys) &&
     Unhindered(l, Step(l, r, es[0]), es[1..]))
  }

  /** How many sessions each tick returns. */
  function SharedCounts(l: Limits, r: Room, es: seq<Event>): seq<int>
    decreases es
  {
    if es == [] then []
    else if es[0].op.Tick? then [|Returned(l, r, es[0])|] + SharedCounts(l, Step(l, r, es[0]), es[1..])
    else SharedCounts(l, Step(l, r, es[0]), es[1..])
  }

  /** What the in-process bucket answers, asked at the same instants about the same queue. */
  function ReferenceCounts(l: Limits, r: Room, ref: Reference, es: seq<Event>): seq<int>
    decreases es
  {
    if es == [] then []
    else if es[0].op.Tick? then
      var (ref', n) := Take(BucketSize(l), l.rate, ref, |r.queue|, es[0].op.now);
      [n] + ReferenceCounts(l, Step(l, r, es[0]), ref', es[1..])
    else ReferenceCounts(l, Step(l, r, es[0]), ref, es[1..])
  }

  /** The shared bucket is in the reference's state, or is absent while the reference is full. */
  ghost predicate Agree(l: Limits, b: Option<Bucket>, ref: Reference, clock: int) {
    && ref.last <= clock
    && 0.0 <= ref.tokens <= BucketSize(l)
    && match b
       case Some(b) => b.tokens == ref.tokens && b.ts == ref.last
       case None => BucketSize(l) <= ref.tokens + Refill(l, clock - ref.last)
  }

  lemma AgreeWaits(l: Limits, b: Option<Bucket>, ref: Reference, from: int, clock: int)
    requires l.rate > 0.0 && from <= clock && Stamped(l, b, from) && Agree(l, b, ref, from)
    ensures Agree(l, LiveBucket(b, clock), ref, clock)
  {
    hide Refill, BucketTtl, BucketSize;
    RefillAdds(l, from - ref.last, clock - ref.last);
    if LiveBucket(b, clock) != b {
      ExpiredIsFull(l, b, clock);
    }
  }

  lemma AgreeAvailable(l: Limits, b: Option<Bucket>, ref: Reference, now: int)
    requires l.rate > 0.0 && Agree(l, b, ref, now)
    ensures Available(l, b, now) == ToppedUp(BucketSize(l), l.rate, ref, now)
  {
    assert Max(0, now - ref.last) == now - ref.last;
  }

  lemma {:induction false} PresentAll(popped: seq<Entry>, m: map<Sid, Meta>)
    requires Sids(popped) <= m.Keys
    ensures |Present(popped, m)| == |popped|
  {
    if popped != [] {
      assert popped[0].sid in Sids(popped);
      PresentAll(popped[1..], m);
    }
  }

  /** An unhindered tick returns whole tokens, as many as there are waiters. */
  lemma TickCount(l: Limits, x: Room, clock: int, op: Op)
    requires l.rate > 0.0 && l.capacity == 0 && Inv(l, x) && op.Tick?
    requires !x.closed && op.maxN >= |x.queue| && Sids(x.queue) <= x.sessions.Keys && x.queue != []
    ensures Serves(Purge(x, op.now), op.maxN)
    ensures |Output(l, x, clock, op)| == Min(|x.queue|, Available(l, x.bucket, op.now).Floor)
  {
    hide Sids, Place, BucketTtl, Valid, BucketSize;
    var p := Purge(x, op.now);
    AvailableNonNegative(l, x, op.now);
    var n := Max(0, Slots(l, p, op.maxN, op.now));
    assert x.queue == x.queue[..n] + x.queue[n..];
    SidsConcat(x.queue[..n], x.queue[n..]);
    PresentAll(x.queue[..n], p.sessions);
  }

  lemma AgreeStep(l: Limits, r: Room, ref: Reference, e: Event)
    requires l.rate > 0.0 && l.capacity == 0 && Inv(l, r)
    requires Agree(l, r.bucket, ref, e.clock) && InTime(e) && e.op.Tick?
    requires !r.closed && e.op.maxN >= |r.queue| && Sids(r.queue) <= r.sessions.Keys
    ensures var (ref', n) := Take(BucketSize(l), l.rate, ref, |r.queue|, e.op.now);
            |Output(l, r, e.clock, e.op)| == n && Agree(l, Apply(l, r, e.clock, e.op).bucket, ref', e.clock)
  {
    hide Inv, Apply, Output, Sids, BucketTtl, Available, BucketSize, Purge;
    StepCharges(l, r, e.clock, e.op);
    PurgeQueue(r, e.op.now);
    if r.queue != [] {
      TickCount(l, r, e.clock, e.op);
      AvailableNonNegative(l, r, e.clock);
      AgreeCharged(l, r.bucket, ref, |r.queue|, e.clock, e.clock + BucketTtl(l));
    }
  }

  lemma PurgeQueue(r: Room, now: int)
    ensures Purge(r, now).queue == r.queue
  {
  }

  lemma AgreeCharged(l: Limits, b: Option<Bucket>, ref: Reference, size: int, now: int, expireAt: int)
    requires l.rate > 0.0 && Agree(l, b, ref, now) && size > 0 && 0.0 <= Available(l, b, now) <= BucketSize(l)
    ensures var n, (ref', m) := Min(size, Available(l, b, now).Floor), Take(BucketSize(l), l.rate, ref, size, now);
            n == m && Agree(l, Some(Bucket(Available(l, b, now) - n as real, now, expireAt)), ref', now)
  {
    hide Refill, BucketSize, Available, Take, Agree, ToppedUp;
    AgreeAvailable(l, b, ref, now);
    TakeIs(BucketSize(l), l.rate, ref, size, now, Available(l, b, now));
    AgreeAfter(l, Available(l, b, now) - Min(size, Available(l, b, now).Floor) as real, now, expireAt);
  }

  lemma AgreeAfter(l: Limits, tokens: real, now: int, expireAt: int)
    requires 0.0 <= tokens <= BucketSize(l)
    ensures Agree(l, Some(Bucket(tokens, now, expireAt)), Reference(tokens, now), now)
  {
    hide BucketSize;
  }

  lemma TakeIs(full: real, rate: real, ref: Reference, size: int, now: int, x: real)
    requires size > 0 && x == ToppedUp(full, rate, ref, now) && 0.0 <= x <= full
    ensures var n := Min(size, x.Floor);
            Take(full, rate, ref, size, now) == (Reference(x - n as real, now), n) && 0.0 <= x - n as real <= full
  {
    hide ToppedUp;
  }

  /** Over every run with the same nondecreasing timestamps, each tick of an unhindered room admits
    exactly what the in-process bucket would allow, although its key may expire in between. */
  lemma {:induction false} SharedRefinesReference(l: Limits, r: Room, ref: Reference, es: seq<Event>, from: int)
    requires l.rate > 0.0 && l.capacity == 0 && Inv(l, r) && Stamped(l, r.bucket, from)
    requires Agree(l, r.bucket, ref, from) && OneClock(from, es) && Unhindered(l, r, es)
    ensures SharedCounts(l, r, es) == ReferenceCounts(l, r, ref, es)
    decreases es
  {
    hide Inv, Apply, Output, Stamped, Agree, Take, Available, BucketSize, LiveBucket;
    if es != [] {
      var e, rest := es[0], es[1..];
      assert e in es;
      var x := Expire(r, e.clock);
      AgreeWaits(l, r.bucket, ref, from, e.clock);
      StampedLater(l, r.bucket, from, e.clock);
      ExpireInv(l, r, e.clock);
      StepInv(l, r, e);
      StepStamped(l, x, e.clock, e.op);
      assert forall f :: f in rest ==> f in es;
      if e.op.Tick? {
        AgreeStep(l, x, ref, e);
        var (ref', n) := Take(BucketSize(l), l.rate, ref, |r.queue|, e.op.now);
        SharedRefinesReference(l, Step(l, r, e), ref', rest, e.clock);
      } else {
        StepCharges(l, x, e.clock, e.op);
        SharedRefinesReference(l, Step(l, r, e), ref, rest, e.clock);
      }
    }
  }

  /** A new room against a new in-process bucket. */
  lemma FreshRoomRefinesReference(l: Limits, es: seq<Event>, from: int)
    requires l.rate > 0.0 && l.capacity == 0 && OneClock(from, es) && Unhindered(l, EMPTY_ROOM, es)
    ensures SharedCounts(l, EMPTY_ROOM, es) == ReferenceCounts(l, EMPTY_ROOM, Reference(BucketSize(l), from), es)
  {
    hide Unhindered, SharedCounts, ReferenceCounts;
    EmptyInv(l);
    SharedRefinesReference(l, EMPTY_ROOM, Reference(BucketSize(l), from), es, from);
  }

  // ----- capacity only

  /** The in-process cap on concurrent admissions. */
  function CapacityAware(queueSize: int, admitted: int, capacity: int): int {
    if queueSize <= 0 || capacity <= 0 then 0 else Max(0, Min(queueSize, capacity - admitted))
  }

  /** A room that is only limited by its capacity admits at each unhindered tick exactly what the
    in-process strategy allows for the slots left after the purge. */
  lemma CapacityTickRefinesStrategy(l: Limits, r: Room, clock: int, maxN: int, now: int)
    requires l.capacity > 0 && l.rate == 0.0 && Inv(l, r) && !r.closed
    requires maxN >= |r.queue| && Sids(r.queue) <= r.sessions.Keys
    ensures |Scripts.Tick(l, r, clock, maxN, now).1| == CapacityAware(|r.queue|, |Purge(r, now).admitted|, l.capacity)
  {
    var n := Popped(l, r, maxN, now);
    assert n == CapacityAware(|r.queue|, |Purge(r, now).admitted|, l.capacity) by {
      hide Sids, Mark, Lapsed;
    }
    hide Inv, Sids, Place, Popped, Scripts.Tick, Purge, Present;
    TickShape(l, r, clock, maxN, now);
    PopSubset(r.queue, n);
    PresentAll(r.queue[..n], r.sessions);
  }
}
