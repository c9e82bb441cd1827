/** The wait estimate shown to a waiter, and how early it can be wrong. */
module Estimate {
  import opened Types
  import opened ZSet
  import opened Scripts
  import opened Runs
  import opened Invariants
  import opened Rate
  import opened Fairness

  /** Seconds; nothing when the room has no rate. */
  function EstimateWait(rate: real, position: int): (wait: Option<real>)
    ensures position <= 0 ==> wait == Some(0.0)
    ensures wait.None? <==> position > 0 && rate <= 0.0
    ensures wait.Some? && position > 0 ==> rate > 0.0 && wait.value * rate == position as real
  {
    if position <= 0 then Some(0.0)
    else if rate <= 0.0 then None
    else Some(MaxReal(0.0, position as real / rate))
  }

  function Members(s: seq<Sid>): set<Sid> {
    set x | x in s
  }

  lemma {:induction false} MembersSize(s: seq<Sid>)
    ensures |Members(s)| <= |s|
  {
    if s != [] {
      MembersSize(s[1..]);
      assert Members(s) == {s[0]} + Members(s[1..]);
    }
  }

  /** Of some queued sessions, nobody leaves the queue but by being admitted. */
  ghost predicate LeaveByAdmission(l: Limits, r: Room, es: seq<Event>, group: set<Sid>)
    decreases es
  {
    es == [] ||
    var r' := Step(l, r, es[0]);
    group - Sids(r'.queue) <= Members(Returned(l, r, es[0])) && LeaveByAdmission(l, r', es[1..], group * Sids(r'.queue))
  }

  /** The session waits all along the run and its last step admits it. */
  ghost predicate AdmittedLast(l: Limits, r: Room, es: seq<Event>, sid: Sid)
    decreases es
  {
    es != [] && sid in Sids(r.queue) &&
    if |es| == 1 then sid in Returned(l, r, es[0]) else AdmittedLast(l, Step(l, r, es[0]), es[1..], sid)
  }

  ghost predicate NotBehind(q: seq<Entry>, group: set<Sid>, sid: Sid) {
    group <= Sids(q) && forall a :: a in group ==> Place(q, a) <= Place(q, sid)
  }

  /** The order of two sessions that both stay is the same after a step. */
  lemma OrderKept(l: Limits, r: Room, e: Event, a: Sid, b: Sid)
    requires Inv(l, r) && a in Sids(r.queue) && b in Sids(r.queue)
    requires a in Sids(Step(l, r, e).queue) && b in Sids(Step(l, r, e).queue)
    requires Place(r.queue, a) <= Place(r.queue, b)
    ensures Place(Step(l, r, e).queue, a) <= Place(Step(l, r, e).queue, b)
  {
    hide Inv, Step, Sids, Place, Valid, Before;
    if a != b {
      var r' := Step(l, r, e);
      StepInv(l, r, e);
      var x := EntryOf(r.queue, a);
      var y := EntryOf(r.queue, b);
      EntryStays(l, r, e, x);
      EntryStays(l, r, e, y);
      InvValid(l, r);
      InvValid(l, r');
      PlaceOrder(r.queue, x, y);
      PlaceOrder(r'.queue, x, y);
    }
  }

  /** A tick that admits a session has popped everybody who was not behind it. */
  lemma AheadArePopped(l: Limits, r: Room, e: Event, group: set<Sid>, sid: Sid)
    requires Inv(l, r) && sid in Returned(l, r, e) && NotBehind(r.queue, group, sid)
    ensures group !! Sids(Step(l, r, e).queue)
  {
    var x := Expire(r, e.clock);
    var n := Popped(l, x, e.op.maxN, e.op.now);
    hide Inv, Sids, Place, Present, Popped;
    TickShape(l, x, e.clock, e.op.maxN, e.op.now);
    PresentSubset(x.queue[..n], x.sessions);
    InvDistinct(l, r, n);
    PopSids(r.queue, n);
    PlaceInPrefix(r.queue, n, sid);
    forall a | a in group ensures a !in Sids(r.queue[n..]) {
      if a in Sids(r.queue[n..]) {
        PopPlace(r.queue, n, a);
      }
    }
  }

  lemma PlaceInPrefix(q: seq<Entry>, n: nat, sid: Sid)
    requires n <= |q| && sid in Sids(q[..n])
    ensures Place(q, sid) < n
  {
    SidsAre(q[..n]);
    var i :| 0 <= i < n && q[..n][i].sid == sid;
    assert q[i].sid == sid;
  }

  lemma AdmissionsOf(l: Limits, r: Room, es: seq<Event>)
    requires es != []
    ensures |Admissions(l, r, es)| == |Returned(l, r, es[0])| + |Admissions(l, Step(l, r, es[0]), es[1..])|
  {
    hide Step, Returned;
  }

  /** By the time a waiter is admitted, at least everybody not behind it has been. */
  lemma {:induction false} EverybodyAheadFirst(l: Limits, r: Room, es: seq<Event>, group: set<Sid>, sid: Sid)
    requires Inv(l, r) && NotBehind(r.queue, group, sid)
    requires AdmittedLast(l, r, es, sid) && LeaveByAdmission(l, r, es, group)
    ensures |group| <= |Admissions(l, r, es)|
    decreases es
  {
    hide Inv, Step, Returned, Sids, Place, Members, Admissions, NotBehind;
    var e, rest := es[0], es[1..];
    var r', out := Step(l, r, e), Returned(l, r, e);
    var still := group * Sids(r'.queue);
    AdmissionsOf(l, r, es);
    MembersSize(out);
    SplitSize(group, Sids(r'.queue), Members(out));
    if rest == [] {
      AheadArePopped(l, r, e, group, sid);
    } else {
      StepInv(l, r, e);
      StillNotBehind(l, r, e, group, sid);
      EverybodyAheadFirst(l, r', rest, still, sid);
    }
  }

  lemma SplitSize(group: set<Sid>, queued: set<Sid>, out: set<Sid>)
    requires group - queued <= out
    ensures |group| <= |out| + |group * queued|
    ensures group !! queued ==> |group| <= |out|
  {
    assert group == (group - queued) + group * queued;
    SubsetSize(group - queued, out);
    if group !! queued {
      assert group * queued == {};
    }
  }

  lemma StillNotBehind(l: Limits, r: Room, e: Event, group: set<Sid>, sid: Sid)
    requires Inv(l, r) && NotBehind(r.queue, group, sid) && sid in Sids(r.queue) && sid in Sids(Step(l, r, e).queue)
    ensures NotBehind(Step(l, r, e).queue, group * Sids(Step(l, r, e).queue), sid)
  {
    hide Inv, Step, Sids, Place;
    var r' := Step(l, r, e);
    forall a | a in group * Sids(r'.queue) ensures Place(r'.queue, a) <= Place(r'.queue, sid) {
      OrderKept(l, r, e, a, sid);
    }
  }

  /** The estimate is optimistic by at most the refill time of one bucket: a waiter told at `from`
    that it will wait p / rate seconds is admitted no sooner than bucket size / rate before that,
    provided those ahead leave only by being admitted. */
  lemma EstimateIsBounded(l: Limits, r: Room, es: seq<Event>, from: int, sid: Sid)
    requires l.rate > 0.0 && Inv(l, r) && Stamped(l, r.bucket, from) && OneClock(from, es)
    requires forall e :: e in es ==> !e.op.Flush?
    requires AdmittedLast(l, r, es, sid)
    requires LeaveByAdmission(l, r, es, Sids(r.queue[..Place(r.queue, sid) + 1]))
    ensures var wait := EstimateWait(l.rate, Place(r.queue, sid) + 1).value;
            es[|es| - 1].clock >= from
            && (es[|es| - 1].clock - from) as real / 1000.0 >= wait - BucketSize(l) / l.rate
  {
    hide Inv, Stamped, OneClock, AdmittedLast, LeaveByAdmission, Sids, Place, Refill, BucketSize;
    WaitsFirst(l, r, es, sid);
    AdmissionTakesTime(l, r, es, from, sid);
    EstimateInTime(l, Place(r.queue, sid) + 1, End(from, es) - from);
  }

  lemma AdmissionTakesTime(l: Limits, r: Room, es: seq<Event>, from: int, sid: Sid)
    requires l.rate > 0.0 && Inv(l, r) && Stamped(l, r.bucket, from) && OneClock(from, es)
    requires forall e :: e in es ==> !e.op.Flush?
    requires AdmittedLast(l, r, es, sid)
    requires LeaveByAdmission(l, r, es, Sids(r.queue[..Place(r.queue, sid) + 1]))
    ensures from <= End(from, es)
    ensures (Place(r.queue, sid) + 1) as real <= BucketSize(l) + Refill(l, End(from, es) - from)
  {
    hide Inv, Stamped, OneClock, AdmittedLast, LeaveByAdmission, Sids, Place, Available, BucketSize, Refill, NotBehind;
    WaitsFirst(l, r, es, sid);
    FirstPlaces(l, r, sid);
    EverybodyAheadFirst(l, r, es, Sids(r.queue[..Place(r.queue, sid) + 1]), sid);
    ClockRateFrom(l, r, es, from);
    AvailableNonNegative(l, r, from);
  }

  lemma EstimateInTime(l: Limits, p: nat, ms: nat)
    requires l.rate > 0.0 && p > 0 && p as real <= BucketSize(l) + Refill(l, ms)
    ensures ms as real / 1000.0 >= EstimateWait(l.rate, p).value - BucketSize(l) / l.rate
  {
    hide BucketSize;
    var wait, full := EstimateWait(l.rate, p).value, BucketSize(l) / l.rate;
    assert full * l.rate == BucketSize(l);
    assert (wait - full) * l.rate == wait * l.rate - full * l.rate;
    Cancel(wait - full, ms as real / 1000.0, l.rate);
  }

  lemma Cancel(x: real, y: real, k: real)
    requires k > 0.0 && x * k <= y * k
    ensures x <= y
  {
    assert (x - y) * k == x * k - y * k;
    if y < x {
      Scale(x - y, k);
    }
  }

  lemma Scale(x: real, k: real)
    requires x > 0.0 && k > 0.0
    ensures x * k > 0.0
  {
  }

  lemma WaitsFirst(l: Limits, r: Room, es: seq<Event>, sid: Sid)
    requires AdmittedLast(l, r, es, sid)
    ensures sid in Sids(r.queue) && es != []
  {
  }

  lemma FirstPlaces(l: Limits, r: Room, sid: Sid)
    requires Inv(l, r) && sid in Sids(r.queue)
    ensures var p := Place(r.queue, sid) + 1;
            p <= |r.queue| && |Sids(r.queue[..p])| == p && NotBehind(r.queue, Sids(r.queue[..p]), sid)
  {
    var p := Place(r.queue, sid) + 1;
    hide Inv, Sids, Place;
    InvDistinct(l, r, p);
    PopSids(r.queue, p);
    PopSubset(r.queue, p);
    forall a | a in Sids(r.queue[..p]) ensures Place(r.queue, a) <= Place(r.queue, sid) {
      PlaceInPrefix(r.queue, p, a);
    }
  }
}
