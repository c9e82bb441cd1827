/** The rate promise over whole runs, and why the bucket key may expire.

  The potential is what the bucket would hold if it were refilled up to the present: it grows by
  at most `rate` a second, and every admission takes one away. */
module Rate {
  import opened Types
  import opened ZSet
  import opened Scripts
  import opened Runs
  import opened Invariants
  import opened Fairness

  // ----- arithmetic of the bucket

  lemma RefillAdds(l: Limits, a: int, b: int)
    requires l.rate > 0.0
    ensures Refill(l, a + b) <= Refill(l, a) + Refill(l, b)
    ensures a <= b ==> Refill(l, a) <= Refill(l, b)
    ensures a >= 0 && b >= 0 ==> Refill(l, a + b) == Refill(l, a) + Refill(l, b)
    ensures Refill(l, a) >= 0.0
  {
    var x, y, z := Max(0, a) as real / 1000.0, Max(0, b) as real / 1000.0, Max(0, a + b) as real / 1000.0;
    assert z <= x + y;
    MulMonotone(z, x + y, l.rate);
    assert (x + y) * l.rate == x * l.rate + y * l.rate;
    if a <= b {
      MulMonotone(x, y, l.rate);
    }
    MulMonotone(0.0, x, l.rate);
    if a >= 0 && b >= 0 {
      assert z == x + y;
    }
  }

  lemma MulMonotone(x: real, y: real, k: real)
    requires x <= y && k >= 0.0
    ensures x * k <= y * k
  {
    assert (y - x) * k >= 0.0;
  }

  lemma AvailableGrows(l: Limits, b: Option<Bucket>, last: int, now: int)
    requires l.rate > 0.0
    ensures Available(l, b, now) <= Available(l, b, last) + Refill(l, now - last)
  {
    hide Refill;
    RefillAdds(l, now - last, 0);
    if b.Some? {
      RefillAdds(l, now - last, last - b.value.ts);
      assert now - last + (last - b.value.ts) == now - b.value.ts;
    }
  }

  // ----- one step

  /** Everything but a serving tick leaves the bucket alone; a serving tick charges one token
    for each session it returns. */
  lemma StepCharges(l: Limits, r: Room, clock: int, op: Op)
    requires l.rate > 0.0 && Inv(l, r) && !op.Flush?
    ensures var r', out := Apply(l, r, clock, op), Output(l, r, clock, op);
            if op.Tick? && Serves(Purge(r, op.now), op.maxN) then
              && |out| as real <= Available(l, r.bucket, op.now)
              && r'.bucket == Some(Bucket(Available(l, r.bucket, op.now) - |out| as real, op.now, clock + BucketTtl(l)))
            else r'.bucket == r.bucket && out == []
  {
    hide Inv, Scripts.Tick, Purge, BucketTtl, Available;
    if op.Tick? {
      TickIs(l, r, clock, op.maxN, op.now);
      if Serves(Purge(r, op.now), op.maxN) {
        AtMostTheTokens(l, r, clock, op.maxN, op.now);
      } else {
        NothingReturned(l, r, clock, op.maxN, op.now);
      }
    } else {
      BucketFrame(l, r, r, clock, op);
    }
  }

  lemma NothingReturned(l: Limits, r: Room, clock: int, maxN: int, now: int)
    requires !Serves(Purge(r, now), maxN)
    ensures Scripts.Tick(l, r, clock, maxN, now).1 == []
  {
    hide Purge, Admit;
  }

  lemma AtMostTheTokens(l: Limits, r: Room, clock: int, maxN: int, now: int)
    requires l.rate > 0.0 && Inv(l, r) && Serves(Purge(r, now), maxN)
    ensures |Scripts.Tick(l, r, clock, maxN, now).1| as real <= Available(l, r.bucket, now)
  {
    var n := Popped(l, r, maxN, now);
    TickShape(l, r, clock, maxN, now);
    InvDistinct(l, r, n);
    PresentIs(r.queue[..n], r.sessions);
    AvailableInRange(l, r, now);
    hide Inv, Scripts.Tick, Present, Sids, Place, Mark, Lapsed, Available;
    assert n <= Available(l, r.bucket, now).Floor;
  }

  // ----- any clocks, a bucket that stays

  /** Time gained along the ticks: the sum of the forward jumps of their clocks. */
  function Rise(last: int, es: seq<Event>): (ms: nat)
    decreases es
  {
    if es == [] then 0
    else if es[0].op.Tick? then Max(0, es[0].op.now - last) + Rise(es[0].op.now, es[1..])
    else Rise(last, es[1..])
  }

  /** The bucket key neither expires nor is flushed along the run. */
  ghost predicate Kept(l: Limits, r: Room, es: seq<Event>)
    decreases es
  {
    es == [] ||
    (!es[0].op.Flush? && LiveBucket(r.bucket, es[0].clock) == r.bucket && Kept(l, Step(l, r, es[0]), es[1..]))
  }

  lemma {:induction false} RateFrom(l: Limits, r: Room, es: seq<Event>, last: int)
    requires l.rate > 0.0 && Inv(l, r) && Kept(l, r, es)
    ensures |Admissions(l, r, es)| as real <= Available(l, r.bucket, last) + Refill(l, Rise(last, es))
    decreases es
  {
    hide Inv, Apply, Output, Refill, Available;
    RefillAdds(l, 0, 0);
    if es == [] {
      AvailableNonNegative(l, r, last);
    } else {
      var e, rest := es[0], es[1..];
      var x, r' := Expire(r, e.clock), Step(l, r, e);
      ExpireInv(l, r, e.clock);
      StepInv(l, r, e);
      StepCharges(l, x, e.clock, e.op);
      if e.op.Tick? {
        RateFrom(l, r', rest, e.op.now);
        AvailableGrows(l, r.bucket, last, e.op.now);
        RefillAdds(l, Max(0, e.op.now - last), Rise(e.op.now, rest));
        RefillClamps(l, e.op.now - last);
        if Serves(Purge(x, e.op.now), e.op.maxN) {
          AvailableAtWrite(l, r.bucket, e.op.now, |Returned(l, r, e)|, e.clock + BucketTtl(l));
        }
      } else {
        RateFrom(l, r', rest, last);
      }
    }
  }

  lemma RefillClamps(l: Limits, ms: int)
    ensures Refill(l, Max(0, ms)) == Refill(l, ms)
  {
  }

  lemma AvailableNonNegative(l: Limits, r: Room, now: int)
    requires l.rate > 0.0 && Inv(l, r)
    ensures 0.0 <= Available(l, r.bucket, now) <= BucketSize(l)
  {
    AvailableInRange(l, r, now);
  }

  lemma AvailableAtWrite(l: Limits, b: Option<Bucket>, now: int, k: nat, expireAt: int)
    requires l.rate > 0.0
    ensures Available(l, Some(Bucket(Available(l, b, now) - k as real, now, expireAt)), now) == Available(l, b, now) - k as real
  {
    assert Available(l, b, now) <= BucketSize(l);
    assert Refill(l, 0) == 0.0;
  }

  /** So many admissions are at most burst, rate or one, whichever is largest, and the rate times so
    many milliseconds. */
  predicate WithinRate(l: Limits, n: nat, ms: nat) {
    var spare := n as real - ms as real / 1000.0 * l.rate;
    spare <= l.burst as real || spare <= l.rate || spare <= 1.0
  }

  /** The rate bound, for any interleaving of workers and any timestamps: in every stretch of
    every run in which the bucket key stays, no more sessions are admitted than one full bucket
    (the largest of burst, rate and one) and the rate times the time gained. */
  lemma RateBound(l: Limits, before: seq<Event>, es: seq<Event>, last: int)
    requires l.rate > 0.0 && Kept(l, Run(l, EMPTY_ROOM, before), es)
    ensures WithinRate(l, |Admissions(l, Run(l, EMPTY_ROOM, before), es)|, Rise(last, es))
  {
    var r := Run(l, EMPTY_ROOM, before);
    EmptyInv(l);
    RunInv(l, EMPTY_ROOM, before);
    hide Run, Inv, Kept, Admissions, Available, Refill, BucketSize, Rise, WithinRate;
    RateFrom(l, r, es, last);
    AvailableNonNegative(l, r, last);
    OneOfThree(l, |Admissions(l, r, es)|, Rise(last, es));
  }

  lemma OneOfThree(l: Limits, n: nat, ms: nat)
    requires n as real <= BucketSize(l) + Refill(l, ms)
    ensures WithinRate(l, n, ms)
  {
  }

  // ----- one clock, a bucket that expires

  /** On one clock the bucket was last written at `ts`, and lives for its whole refill time. */
  ghost predicate Stamped(l: Limits, b: Option<Bucket>, clock: int)
    requires l.rate > 0.0
  {
    b.Some? ==> 0.0 <= b.value.tokens <= BucketSize(l) && b.value.ts <= clock && b.value.expireAt == b.value.ts + BucketTtl(l)
  }

  /** A bucket key expires only once the bucket is full again. */
  lemma ExpiredIsFull(l: Limits, b: Option<Bucket>, clock: int)
    requires l.rate > 0.0 && Stamped(l, b, clock)
    requires LiveBucket(b, clock) != b
    ensures Available(l, b, clock) == BucketSize(l)
  {
    var ms := clock - b.value.ts;
    var x := BucketSize(l) / l.rate * 1000.0;
    assert x <= Ceil(x) as real <= ms as real;
    RefillsWhole(BucketSize(l), l.rate, ms as real);
    MulMonotone(0.0, ms as real / 1000.0, l.rate);
  }

  lemma RefillsWhole(size: real, rate: real, ms: real)
    requires rate > 0.0 && size / rate * 1000.0 <= ms && size >= 0.0
    ensures size <= ms / 1000.0 * rate
    ensures ms >= 0.0
  {
    var t := size / rate;
    assert t * rate == size;
    assert t >= 0.0;
    MulMonotone(t, ms / 1000.0, rate);
  }

  lemma AvailableMonotone(l: Limits, b: Option<Bucket>, from: int, clock: int)
    requires l.rate > 0.0 && from <= clock
    ensures Available(l, b, from) <= Available(l, b, clock)
  {
    hide Refill;
    if b.Some? {
      RefillAdds(l, from - b.value.ts, clock - b.value.ts);
    }
  }

  lemma LiveAvailable(l: Limits, b: Option<Bucket>, clock: int)
    requires l.rate > 0.0 && Stamped(l, b, clock)
    ensures Available(l, LiveBucket(b, clock), clock) == Available(l, b, clock)
  {
    if LiveBucket(b, clock) != b {
      ExpiredIsFull(l, b, clock);
    }
  }

  lemma StepStamped(l: Limits, r: Room, clock: int, op: Op)
    requires l.rate > 0.0 && Inv(l, r) && Stamped(l, r.bucket, clock) && InTime(Event(clock, op))
    ensures Stamped(l, Apply(l, r, clock, op).bucket, clock)
  {
    hide Inv, Apply, Output, Available, BucketTtl;
    if op.Flush? {
      FlushClears(l, r, clock, op);
    } else {
      StepCharges(l, r, clock, op);
      AvailableNonNegative(l, r, clock);
    }
  }

  lemma FlushClears(l: Limits, r: Room, clock: int, op: Op)
    requires op.Flush?
    ensures Apply(l, r, clock, op) == EMPTY_ROOM
  {
  }

  /** The time of the last step of a run. */
  function End(from: int, es: seq<Event>): int {
    if es == [] then from else es[|es| - 1].clock
  }

  lemma {:induction false} ClockRateFrom(l: Limits, r: Room, es: seq<Event>, from: int)
    requires l.rate > 0.0 && Inv(l, r) && Stamped(l, r.bucket, from) && OneClock(from, es)
    requires forall e :: e in es ==> !e.op.Flush?
    ensures from <= End(from, es)
    ensures |Admissions(l, r, es)| as real <= Available(l, r.bucket, from) + Refill(l, End(from, es) - from)
    decreases es
  {
    hide Inv, Apply, Output, Refill, Available, Stamped, LiveBucket;
    RefillAdds(l, 0, 0);
    if es == [] {
      AvailableNonNegative(l, r, from);
    } else {
      var e, rest := es[0], es[1..];
      var x, r' := Expire(r, e.clock), Step(l, r, e);
      assert e in es;
      assert Stamped(l, r.bucket, e.clock) && Stamped(l, x.bucket, e.clock) by {
        StampedLater(l, r.bucket, from, e.clock);
      }
      ExpireInv(l, r, e.clock);
      StepInv(l, r, e);
      StepCharges(l, x, e.clock, e.op);
      StepStamped(l, x, e.clock, e.op);
      LiveAvailable(l, r.bucket, e.clock);
      AvailableGrows(l, r.bucket, from, e.clock);
      assert forall f :: f in rest ==> f in es;
      ClockRateFrom(l, r', rest, e.clock);
      assert End(from, es) == End(e.clock, rest);
      RefillAdds(l, e.clock - from, End(e.clock, rest) - e.clock);
      assert e.clock - from + (End(e.clock, rest) - e.clock) == End(from, es) - from;
      if e.op.Tick? && Serves(Purge(x, e.op.now), e.op.maxN) {
        AvailableAtWrite(l, x.bucket, e.clock, |Returned(l, r, e)|, e.clock + BucketTtl(l));
      }
    }
  }

  lemma StampedLater(l: Limits, b: Option<Bucket>, from: int, clock: int)
    requires l.rate > 0.0 && Stamped(l, b, from) && from <= clock
    ensures Stamped(l, b, clock) && Stamped(l, LiveBucket(b, clock), clock)
  {
  }

  lemma {:induction false} RunStamped(l: Limits, r: Room, es: seq<Event>, from: int)
    requires l.rate > 0.0 && Inv(l, r) && Stamped(l, r.bucket, from) && OneClock(from, es)
    ensures Stamped(l, Run(l, r, es).bucket, End(from, es))
    decreases es
  {
    hide Inv, Apply, Stamped, LiveBucket;
    if es != [] {
      var e, rest := es[0], es[1..];
      assert e in es;
      StampedLater(l, r.bucket, from, e.clock);
      ExpireInv(l, r, e.clock);
      StepInv(l, r, e);
      StepStamped(l, Expire(r, e.clock), e.clock, e.op);
      assert forall f :: f in rest ==> f in es;
      RunStamped(l, Step(l, r, e), rest, e.clock);
      assert End(from, es) == End(e.clock, rest);
    }
  }

  /** The rate bound for every window of every run on one clock, with the bucket key expiring as
    the script asks: at most one full bucket and the rate times the length of the window. */
  lemma WindowRateBound(l: Limits, before: seq<Event>, window: seq<Event>, from: int)
    requires l.rate > 0.0 && OneClock(from, before) && window != []
    requires OneClock(End(from, before), window)
    requires forall e :: e in window ==> !e.op.Flush?
    ensures var span := window[|window| - 1].clock - window[0].clock;
            span >= 0 && WithinRate(l, |Admissions(l, Run(l, EMPTY_ROOM, before), window)|, span)
  {
    var r := Run(l, EMPTY_ROOM, before);
    hide Inv, Stamped, OneClock, Run, BucketSize, Admissions, Refill, WithinRate;
    EmptyRuns(l, before, from);
    WindowWithin(l, r, window, End(from, before));
  }

  lemma WindowWithin(l: Limits, r: Room, window: seq<Event>, from: int)
    requires l.rate > 0.0 && Inv(l, r) && Stamped(l, r.bucket, from) && OneClock(from, window) && window != []
    requires forall e :: e in window ==> !e.op.Flush?
    ensures var span := window[|window| - 1].clock - window[0].clock;
            span >= 0 && WithinRate(l, |Admissions(l, r, window)|, span)
  {
    hide Inv, Stamped, OneClock, BucketSize, Admissions, Refill, WithinRate;
    WindowFrom(l, r, window, from);
    OneOfThree(l, |Admissions(l, r, window)|, window[|window| - 1].clock - window[0].clock);
  }

  lemma WindowFrom(l: Limits, r: Room, window: seq<Event>, from: int)
    requires l.rate > 0.0 && Inv(l, r) && Stamped(l, r.bucket, from) && OneClock(from, window) && window != []
    requires forall e :: e in window ==> !e.op.Flush?
    ensures window[0].clock <= window[|window| - 1].clock
    ensures |Admissions(l, r, window)| as real
         <= BucketSize(l) + Refill(l, window[|window| - 1].clock - window[0].clock)
  {
    hide Inv, Stamped, Refill, OneClock, Available, BucketSize, Admissions;
    var start := window[0].clock;
    ClockRestarts(from, window);
    StampedLater(l, r.bucket, from, start);
    ClockRateFrom(l, r, window, start);
    AvailableNonNegative(l, r, start);
  }

  lemma EmptyRuns(l: Limits, es: seq<Event>, from: int)
    requires l.rate > 0.0 && OneClock(from, es)
    ensures Inv(l, Run(l, EMPTY_ROOM, es)) && Stamped(l, Run(l, EMPTY_ROOM, es).bucket, End(from, es))
  {
    EmptyInv(l);
    RunInv(l, EMPTY_ROOM, es);
    RunStamped(l, EMPTY_ROOM, es, from);
  }

  lemma ClockRestarts(from: int, es: seq<Event>)
    requires OneClock(from, es) && es != []
    ensures from <= es[0].clock && OneClock(es[0].clock, es)
  {
  }

  // ----- expiry of the bucket cannot be observed

  /** The same step in a room whose bucket key never expires. */
  function KeepStep(l: Limits, r: Room, e: Event): Room {
    Apply(l, Expire(r, e.clock).(bucket := r.bucket), e.clock, e.op)
  }

  function KeepAdmissions(l: Limits, r: Room, es: seq<Event>): seq<Sid>
    decreases es
  {
    if es == [] then [] else
    var now := Output(l, Expire(r, es[0].clock).(bucket := r.bucket), es[0].clock, es[0].op);
    now + KeepAdmissions(l, KeepStep(l, r, es[0]), es[1..])
  }

  /** Two rooms that differ at most in a bucket that one has lost and the other has full. */
  ghost predicate Twins(l: Limits, r: Room, k: Room, clock: int)
    requires l.rate > 0.0
  {
    && k == r.(bucket := k.bucket)
    && Stamped(l, r.bucket, clock) && Stamped(l, k.bucket, clock)
    && (r.bucket == k.bucket || (r.bucket.None? && Available(l, k.bucket, clock) == BucketSize(l)))
  }

  lemma TwinsWait(l: Limits, r: Room, k: Room, from: int, clock: int)
    requires l.rate > 0.0 && from <= clock && Twins(l, r, k, from)
    ensures Twins(l, Expire(r, clock), Expire(k, clock).(bucket := k.bucket), clock)
  {
    StampedLater(l, k.bucket, from, clock);
    StampedLater(l, r.bucket, from, clock);
    AvailableMonotone(l, k.bucket, from, clock);
    hide Refill, LiveSessions, LiveNonces, BucketTtl;
    if r.bucket == k.bucket && LiveBucket(r.bucket, clock) != r.bucket {
      ExpiredIsFull(l, k.bucket, clock);
    }
  }

  lemma TwinsApply(l: Limits, r: Room, k: Room, clock: int, op: Op)
    requires l.rate > 0.0 && Twins(l, r, k, clock) && Inv(l, r) && Inv(l, k) && InTime(Event(clock, op))
    ensures Output(l, r, clock, op) == Output(l, k, clock, op)
    ensures Twins(l, Apply(l, r, clock, op), Apply(l, k, clock, op), clock)
  {
    StepStamped(l, r, clock, op);
    StepStamped(l, k, clock, op);
    hide Inv, Stamped, Available, Apply, Output;
    if op.Flush? {
      FlushClears(l, r, clock, op);
      FlushClears(l, k, clock, op);
      NoTickNoOutput(l, r, k, clock, op);
    } else if op.Tick? {
      assert Available(l, r.bucket, clock) == Available(l, k.bucket, clock) by {
        NoBucketIsFull(l, clock);
      }
      TickSeesAvailable(l, r, k, clock, op);
    } else {
      BucketFrame(l, r, k, clock, op);
      NoTickNoOutput(l, r, k, clock, op);
    }
  }

  lemma NoBucketIsFull(l: Limits, now: int)
    ensures Available(l, None, now) == BucketSize(l)
  {
  }

  lemma NoTickNoOutput(l: Limits, r: Room, k: Room, clock: int, op: Op)
    requires !op.Tick?
    ensures Output(l, r, clock, op) == Output(l, k, clock, op)
  {
  }

  /** A tick reads nothing of the bucket but the tokens on hand. */
  lemma TickSeesAvailable(l: Limits, r: Room, k: Room, clock: int, op: Op)
    requires op.Tick? && k == r.(bucket := k.bucket)
    requires Available(l, r.bucket, op.now) == Available(l, k.bucket, op.now)
    ensures Output(l, r, clock, op) == Output(l, k, clock, op)
    ensures var r', k' := Apply(l, r, clock, op), Apply(l, k, clock, op);
            && k' == r'.(bucket := k'.bucket)
            && (r'.bucket == k'.bucket || (r'.bucket == r.bucket && k'.bucket == k.bucket))
  {
    hide Scripts.Tick, Admit, Popped, BucketTtl, Available, Purge;
    PurgeFrame(r, k, op.now);
    SamePops(l, r, k, op.maxN, op.now);
    AdmitFrame(l, Purge(r, op.now), Purge(k, op.now), Popped(l, r, op.maxN, op.now), op.now);
    TickIs(l, r, clock, op.maxN, op.now);
    TickIs(l, k, clock, op.maxN, op.now);
  }

  lemma PurgeFrame(r: Room, k: Room, now: int)
    requires k == r.(bucket := k.bucket)
    ensures Purge(k, now) == Purge(r, now).(bucket := k.bucket)
    ensures Purge(r, now).bucket == r.bucket && Purge(r, now).queue == r.queue
  {
    hide Mark, Lapsed;
  }

  lemma SamePops(l: Limits, r: Room, k: Room, maxN: int, now: int)
    requires k == r.(bucket := k.bucket) && Available(l, r.bucket, now) == Available(l, k.bucket, now)
    ensures Popped(l, r, maxN, now) == Popped(l, k, maxN, now)
  {
    PurgeFrame(r, k, now);
    hide Available, Purge;
  }

  lemma AdmitFrame(l: Limits, r: Room, k: Room, n: nat, now: int)
    requires n <= |r.queue| && k == r.(bucket := k.bucket)
    ensures Admit(l, k, n, now).1 == Admit(l, r, n, now).1
    ensures Admit(l, k, n, now).0 == Admit(l, r, n, now).0.(bucket := k.bucket)
    ensures Admit(l, r, n, now).0.bucket == r.bucket
  {
    hide Sids, Mark, Present;
  }

  /** No other step but a flush reads or writes the bucket. */
  lemma BucketFrame(l: Limits, r: Room, k: Room, clock: int, op: Op)
    requires !op.Tick? && !op.Flush? && k == r.(bucket := k.bucket)
    ensures var r', k' := Apply(l, r, clock, op), Apply(l, k, clock, op);
            k' == r'.(bucket := k'.bucket) && r'.bucket == r.bucket && k'.bucket == k.bucket
  {
    if op.Enqueue? || op.Poll? {
      hide Sids, Place, Touch, AddNX;
    } else {
      hide Sids, Mark, Touch, Without, Lapsed, Idle;
    }
  }

  /** A room whose bucket key expires makes the same admissions, on every run on one clock, as a
    room whose bucket key never does. */
  lemma {:induction false} ExpiryInvisible(l: Limits, r: Room, k: Room, es: seq<Event>, from: int)
    requires l.rate > 0.0 && Twins(l, r, k, from) && Inv(l, r) && Inv(l, k) && OneClock(from, es)
    ensures Admissions(l, r, es) == KeepAdmissions(l, k, es)
    decreases es
  {
    hide Inv, Apply, Output, Twins;
    if es != [] {
      var e := es[0];
      assert e in es;
      var x, y := Expire(r, e.clock), Expire(k, e.clock).(bucket := k.bucket);
      TwinsWait(l, r, k, from, e.clock);
      ExpireInv(l, r, e.clock);
      KeepInv(l, k, e.clock);
      TwinsApply(l, x, y, e.clock, e.op);
      ApplyInv(l, x, e.clock, e.op);
      ApplyInv(l, y, e.clock, e.op);
      assert forall f :: f in es[1..] ==> f in es;
      ExpiryInvisible(l, Step(l, r, e), KeepStep(l, k, e), es[1..], e.clock);
    }
  }

  /** In particular from the start. */
  lemma ExpiryInvisibleFromStart(l: Limits, es: seq<Event>, from: int)
    requires l.rate > 0.0 && OneClock(from, es)
    ensures Admissions(l, EMPTY_ROOM, es) == KeepAdmissions(l, EMPTY_ROOM, es)
  {
    EmptyInv(l);
    ExpiryInvisible(l, EMPTY_ROOM, EMPTY_ROOM, es, from);
  }

  lemma KeepInv(l: Limits, r: Room, clock: int)
    requires Inv(l, r)
    ensures Inv(l, Expire(r, clock).(bucket := r.bucket))
  {
  }
}
