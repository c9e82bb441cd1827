/** What a tick does, in the numbers of the room and its limits: nobody enters a closed room, and an
  open one admits as many as it may, and not one more. */
module Ticks {
  import opened Types
  import opened ZSet
  import opened Scripts
  import opened Runs
  import opened Invariants
  import opened Fairness

  // ----- the kill switch

  /** A tick of a closed room frees lapsed slots, and that is all. */
  lemma ClosedTickAdmitsNobody(l: Limits, r: Room, clock: int, maxN: int, now: int)
    requires r.closed
    ensures var (r', out) := Scripts.Tick(l, r, clock, maxN, now);
            && out == [] && r'.queue == r.queue && r'.seen == r.seen && r'.bucket == r.bucket
            && r'.closed && r'.nonces == r.nonces && r'.sessions.Keys == r.sessions.Keys
            && (forall s :: s in r'.admitted <==> s in r.admitted && r.admitted[s] > now)
            && (forall s :: s in r'.admitted ==> r'.admitted[s] == r.admitted[s])
  {
  }

  /** What the last step that engages, releases or flushes the switch left of it. */
  function SwitchAfter(closed: bool, es: seq<Event>): bool
    decreases es
  {
    if es == [] then closed
    else
      SwitchAfter(match es[0].op
                  case KillSwitch(engaged) => engaged
                  case Flush => false
                  case _ => closed, es[1..])
  }

  lemma StepSwitch(l: Limits, r: Room, e: Event)
    ensures Step(l, r, e).closed
         == match e.op
            case KillSwitch(engaged) => engaged
            case Flush => false
            case _ => r.closed
  {
    hide Sids, Place, AddNX, Touch, Mark, Lapsed, Available, BucketTtl, Scripts.Slots, Present, Without;
  }

  /** Nothing but the switch and a flush opens or closes a room. */
  lemma {:induction false} SwitchDecides(l: Limits, r: Room, es: seq<Event>)
    ensures Run(l, r, es).closed == SwitchAfter(r.closed, es)
    decreases es
  {
    if es != [] {
      hide Step;
      StepSwitch(l, r, es[0]);
      SwitchDecides(l, Step(l, r, es[0]), es[1..]);
    }
  }

  /** Every enqueue along the run is told that the room is closed, and changes nothing. */
  ghost predicate TurnsAway(l: Limits, r: Room, es: seq<Event>)
    decreases es
  {
    es == [] ||
    (TurnedAway(Expire(r, es[0].clock), es[0]) && TurnsAway(l, Step(l, r, es[0]), es[1..]))
  }

  ghost predicate TurnedAway(r: Room, e: Event) {
    match e.op
    case Enqueue(sid, score, ttl, now, owner, check) =>
      Scripts.Enqueue(r, e.clock, sid, score, ttl, now, owner, check) == (r, -1)
    case _ => true
  }

  /** From the moment the switch is engaged until it is released or the room flushed, nobody is
    admitted and nobody joins, whatever anybody does. */
  lemma ClosedRoomAdmitsNobody(l: Limits, r: Room, at: int, es: seq<Event>)
    requires forall e :: e in es ==> e.op != KillSwitch(false) && !e.op.Flush?
    ensures var closed := Step(l, r, Event(at, KillSwitch(true)));
            Admissions(l, closed, es) == [] && TurnsAway(l, closed, es) && Run(l, closed, es).closed
  {
    StaysClosed(l, Step(l, r, Event(at, KillSwitch(true))), es);
  }

  lemma {:induction false} StaysClosed(l: Limits, r: Room, es: seq<Event>)
    requires r.closed && forall e :: e in es ==> e.op != KillSwitch(false) && !e.op.Flush?
    ensures Admissions(l, r, es) == [] && TurnsAway(l, r, es) && Run(l, r, es).closed
    decreases es
  {
    if es != [] {
      var e := es[0];
      assert e in es && forall f :: f in es[1..] ==> f in es;
      StepSwitch(l, r, e);
      hide Apply, Scripts.Tick;
      if e.op.Tick? {
        ClosedTickAdmitsNobody(l, Expire(r, e.clock), e.clock, e.op.maxN, e.op.now);
      }
      StaysClosed(l, Step(l, r, e), es[1..]);
    }
  }

  // ----- as many as it may

  /** The tick may pop `k` sessions: the room is open, there are as many, the caller asked for as
    many, as many slots are free, and there are as many tokens in a bucket that holds at most burst,
    rate or one, whichever is largest. */
  ghost predicate May(l: Limits, r: Room, maxN: int, now: int, k: int) {
    && !r.closed && k <= |r.queue| && k <= maxN
    && (l.capacity > 0 ==> |LiveSlots(r, now)| + k <= l.capacity)
    && (l.rate > 0.0 ==>
          && (k <= l.burst || k as real <= l.rate || k <= 1)
          && (r.bucket.Some? ==> k as real <= r.bucket.value.tokens + Gained(l, r.bucket.value, now)))
  }

  function LiveSlots(r: Room, now: int): set<Sid> {
    set s | s in r.admitted && r.admitted[s] > now
  }

  function Gained(l: Limits, b: Bucket, now: int): real {
    if now > b.ts then Gain(l.rate, (now - b.ts) as real) else 0.0
  }

  /** A tick pops the first members of the queue, as many as it may and not one more. */
  lemma TickPopsAsManyAsItMay(l: Limits, r: Room, clock: int, maxN: int, now: int)
    requires Inv(l, r)
    ensures var r' := Scripts.Tick(l, r, clock, maxN, now).0;
            var n := |r.queue| - |r'.queue|;
            && n >= 0 && r'.queue == r.queue[n..]
            && (n > 0 ==> May(l, r, maxN, now, n))
            && !May(l, r, maxN, now, n + 1)
  {
    var n := Popped(l, r, maxN, now);
    PurgedSlots(r, now);
    if Serves(Purge(r, now), maxN) {
      PoppedMay(l, r, maxN, now, n);
    } else {
      assert n == 0 && !May(l, r, maxN, now, 1);
    }
    hide Inv, Scripts.Tick, Lapsed, Mark, LiveSlots, May, Popped;
    TickShape(l, r, clock, maxN, now);
  }

  lemma PurgedSlots(r: Room, now: int)
    ensures Purge(r, now).admitted.Keys == LiveSlots(r, now) && |Purge(r, now).admitted| == |LiveSlots(r, now)|
  {
    assert Purge(r, now).admitted.Keys == LiveSlots(r, now);
  }

  lemma PoppedMay(l: Limits, r: Room, maxN: int, now: int, n: nat)
    requires Serves(Purge(r, now), maxN) && n == Popped(l, r, maxN, now)
    requires |Purge(r, now).admitted| == |LiveSlots(r, now)|
    ensures n > 0 ==> May(l, r, maxN, now, n)
    ensures !May(l, r, maxN, now, n + 1)
  {
    hide Lapsed, Mark, LiveSlots;
    if l.rate > 0.0 {
      OnHand(l, r.bucket, now, n);
      OnHand(l, r.bucket, now, n + 1);
    }
    hide Gained, Available;
  }

  /** So many whole tokens are on hand. */
  lemma OnHand(l: Limits, b: Option<Bucket>, now: int, k: int)
    requires l.rate > 0.0
    ensures k <= Available(l, b, now).Floor
       <==> (k <= l.burst || k as real <= l.rate || k <= 1) && (b.Some? ==> k as real <= b.value.tokens + Gained(l, b.value, now))
  {
    assert k <= Available(l, b, now).Floor <==> k as real <= Available(l, b, now);
    if b.Some? {
      assert Refill(l, now - b.value.ts) == Gained(l, b.value, now);
    }
  }

  // ----- what is left in the bucket

  /** A tick that finds an open room and somebody waiting writes what is left of the tokens: of a new
    bucket the largest of burst, rate and one, of a stored one no more than that and no more than
    what it held and gained; less one token for each session returned. The key lives for the time in
    which an empty bucket fills, rounded up to a millisecond, and a minute more. */
  lemma TickLeavesInBucket(l: Limits, r: Room, clock: int, maxN: int, now: int)
    requires l.rate > 0.0 && !r.closed && maxN > 0 && r.queue != []
    ensures var (r', out) := Scripts.Tick(l, r, clock, maxN, now);
            r'.bucket.Some? && Left(l, r.bucket, now, clock, r'.bucket.value, |out|)
  {
    hide Available, BucketTtl, Scripts.Tick, Lapsed, Mark, Sids, Present;
    TickIs(l, r, clock, maxN, now);
    LeftIs(l, r.bucket, now, clock, |Scripts.Tick(l, r, clock, maxN, now).1|);
  }

  /** No other tick touches the bucket. */
  lemma OtherTicksLeaveBucket(l: Limits, r: Room, clock: int, maxN: int, now: int)
    requires l.rate <= 0.0 || r.closed || maxN <= 0 || r.queue == []
    ensures Scripts.Tick(l, r, clock, maxN, now).0.bucket == r.bucket
  {
    hide Available, BucketTtl, Scripts.Tick, Lapsed, Mark, Sids, Present;
    TickIs(l, r, clock, maxN, now);
  }

  ghost predicate Left(l: Limits, b: Option<Bucket>, now: int, clock: int, b': Bucket, returned: nat) {
    var before, fill := b'.tokens + returned as real, b'.expireAt - clock - 60000;
    && b'.ts == now
    && (before <= l.burst as real || before <= l.rate || before <= 1.0)
    && (if b.Some? && b.value.tokens + Gained(l, b.value, now) <= before then
          before == b.value.tokens + Gained(l, b.value, now)
        else b.Some? ==> before >= l.burst as real && before >= l.rate && before >= 1.0)
    && (b.None? ==> before >= l.burst as real && before >= l.rate && before >= 1.0)
    && (forall ms: int :: ms >= fill <==> FillsIn(l, ms))
  }

  /** In so many milliseconds an empty bucket fills. */
  predicate FillsIn(l: Limits, ms: int) {
    var gained := Gain(l.rate, ms as real);
    gained >= l.burst as real && gained >= l.rate && gained >= 1.0
  }

  function Gain(rate: real, ms: real): real { ms / 1000.0 * rate }

  lemma LeftIs(l: Limits, b: Option<Bucket>, now: int, clock: int, k: nat)
    requires l.rate > 0.0
    ensures Left(l, b, now, clock, Bucket(Available(l, b, now) - k as real, now, clock + BucketTtl(l)), k)
  {
    forall ms: int ensures ms >= BucketTtl(l) - 60000 <==> FillsIn(l, ms) {
      FillTime(l, ms);
    }
    hide FillsIn, BucketTtl, BucketSize;
  }

  lemma FillTime(l: Limits, ms: int)
    requires l.rate > 0.0
    ensures ms >= BucketTtl(l) - 60000 <==> FillsIn(l, ms)
  {
    hide BucketSize, BucketTtl, Ceil, Gain, FillMs;
    EnoughTokens(l, Gain(l.rate, ms as real));
    TtlIs(l);
    Cleared(ms as real, BucketSize(l), l.rate);
    RoundedUp(ms, FillMs(BucketSize(l), l.rate));
  }

  function FillMs(size: real, rate: real): real
    requires rate > 0.0
  {
    size / rate * 1000.0
  }

  lemma TtlIs(l: Limits)
    requires l.rate > 0.0
    ensures BucketTtl(l) - 60000 == Ceil(FillMs(BucketSize(l), l.rate))
  {
  }

  lemma EnoughTokens(l: Limits, gained: real)
    ensures gained >= BucketSize(l) <==> gained >= l.burst as real && gained >= l.rate && gained >= 1.0
  {
  }

  lemma RoundedUp(ms: int, time: real)
    ensures ms >= Ceil(time) <==> ms as real >= time
  {
  }

  lemma Cleared(ms: real, size: real, rate: real)
    requires rate > 0.0
    ensures ms >= FillMs(size, rate) <==> Gain(rate, ms) >= size
  {
    var full := size / rate;
    assert full * rate == size;
    var x := ms / 1000.0 - full;
    assert x * rate == ms / 1000.0 * rate - size;
    assert x > 0.0 ==> x * rate > 0.0;
    assert x < 0.0 ==> (-x) * rate > 0.0;
    assert (-x) * rate == -(x * rate);
  }
}
