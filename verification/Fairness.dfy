/** First come, first served: what every step does to the queue, and what follows for places,
  overtaking, progress and repeated admissions over whole runs. */
module Fairness {
  import opened Types
  import opened ZSet
  import opened Scripts
  import opened Runs
  import opened Invariants

  // ----- one step

  /** How many members a tick pops. */
  function Popped(l: Limits, r: Room, maxN: int, now: int): (n: nat)
    ensures n <= |r.queue|
  {
    var p := Purge(r, now);
    if Serves(p, maxN) then Max(0, Slots(l, p, maxN, now)) else 0
  }

  /** Joining inserts one entry, a tick pops a prefix, abandoning and reclaiming filter,
    and nothing else touches the queue. */
  ghost predicate QueueChange(l: Limits, r: Room, clock: int, op: Op) {
    var q, q' := r.queue, Apply(l, r, clock, op).queue;
    match op
    case Enqueue(sid, score, _, _, _, _) => q' == q || (sid !in Sids(q) && q' == Insert(q, Entry(sid, score)))
    case Tick(maxN, now) => q' == q[Popped(l, r, maxN, now)..]
    case Remove(sid) => q' == Without(q, {sid})
    case Reclaim(cutoff, _) => q' == Without(q, Idle(r.seen, cutoff))
    case Flush => q' == []
    case _ => q' == q
  }

  lemma StepQueue(l: Limits, r: Room, clock: int, op: Op)
    ensures QueueChange(l, r, clock, op)
  {
    hide Sids, Place, Insert, Without, Touch, Mark, Present, Available, BucketTtl, Idle, Lapsed;
  }

  /** What one tick does, in full: it pops the first members of the queue; exactly those with
    metadata are returned, each once and in queue order, and hold a slot until the grace window
    ends; the others are dropped; slots that had lapsed are free, and nobody else is touched. */
  lemma TickConserves(l: Limits, r: Room, clock: int, maxN: int, now: int)
    requires Inv(l, r)
    ensures var (r', out) := Scripts.Tick(l, r, clock, maxN, now);
            var popped := r.queue[..Popped(l, r, maxN, now)];
            && r.queue == popped + r'.queue
            && out == Present(popped, r.sessions)
            && multiset(out) == multiset(Sids(popped) * r.sessions.Keys)
            && r'.admitted.Keys == r.admitted.Keys - Lapsed(r.admitted, now) + Sids(popped) * r.sessions.Keys
            && (forall s :: s in out ==> s in r'.admitted && r'.admitted[s] == now + l.grace
                                         && s in r'.sessions && r'.sessions[s].status == Admitted)
            && (forall s :: s in r'.admitted && s !in out ==> s in r.admitted && r'.admitted[s] == r.admitted[s] > now)
            && r'.sessions.Keys == r.sessions.Keys
            && (forall s :: s in r.sessions && s !in out && s !in Lapsed(r.admitted, now) ==> r'.sessions[s] == r.sessions[s])
            && (forall s :: s in Lapsed(r.admitted, now) && s in r.sessions && s !in out ==> r'.sessions[s].status == Expired)
  {
    hide Inv, Sids, Place, Scripts.Tick, Popped, Present;
    var n := Popped(l, r, maxN, now);
    var popped := r.queue[..n];
    assert r.queue == popped + r.queue[n..];
    TickShape(l, r, clock, maxN, now);
    InvDistinct(l, r, n);
    PresentIs(popped, r.sessions);
    SameMembers(Present(popped, r.sessions), Sids(popped) * r.sessions.Keys);
  }

  lemma SameMembers<T>(a: seq<T>, b: set<T>)
    requires multiset(a) == multiset(b)
    ensures forall x :: x in a <==> x in b
  {
    assert forall x :: x in a <==> x in multiset(a);
  }

  /** A tick is a purge, a pop of `Popped` members and a write of the bucket. */
  lemma TickIs(l: Limits, r: Room, clock: int, maxN: int, now: int)
    ensures var (r', out) := Scripts.Tick(l, r, clock, maxN, now);
            var (a, o) := Admit(l, Purge(r, now), Popped(l, r, maxN, now), now);
            && out == o && r' == a.(bucket := r'.bucket)
            && r'.bucket == if l.rate > 0.0 && Serves(Purge(r, now), maxN) then
                 Some(Bucket(Available(l, r.bucket, now) - |out| as real, now, clock + BucketTtl(l)))
               else r.bucket
  {
    hide Present, Mark, Lapsed, BucketTtl, Available, Slots, Sids, Place;
    NothingAdmitted(l, Purge(r, now), now);
  }

  lemma TickShape(l: Limits, r: Room, clock: int, maxN: int, now: int)
    ensures var (r', out) := Scripts.Tick(l, r, clock, maxN, now);
            var n := Popped(l, r, maxN, now);
            var who := Sids(r.queue[..n]) * r.sessions.Keys;
            && r'.queue == r.queue[n..]
            && out == Present(r.queue[..n], r.sessions)
            && r'.admitted == (r.admitted - Lapsed(r.admitted, now)) + (map s | s in who :: now + l.grace)
            && r'.sessions == Mark(Mark(r.sessions, Lapsed(r.admitted, now), Expired), who, Admitted)
            && r'.seen == r.seen - Sids(r.queue[..n])
  {
    hide Sids, Place, Popped, Scripts.Tick, Present, Lapsed;
    TickIs(l, r, clock, maxN, now);
    var p := Purge(r, now);
    assert p.sessions.Keys == r.sessions.Keys;
    PresentKeys(r.queue[..Popped(l, r, maxN, now)], r.sessions, p.sessions);
  }

  lemma InvDistinct(l: Limits, r: Room, n: nat)
    requires Inv(l, r) && n <= |r.queue|
    ensures Distinct(r.queue) && Distinct(r.queue[..n])
  {
  }

  lemma {:induction false} PresentKeys(popped: seq<Entry>, m: map<Sid, Meta>, m': map<Sid, Meta>)
    requires m.Keys == m'.Keys
    ensures Present(popped, m) == Present(popped, m')
  {
    if popped != [] {
      PresentKeys(popped[1..], m, m');
    }
  }

  // ----- places in the queue

  /** No step changes the score of a session that stays queued. */
  lemma ScoresStay(l: Limits, r: Room, clock: int, op: Op, e: Entry)
    requires Inv(l, r) && e in r.queue && e.sid in Sids(Apply(l, r, clock, op).queue)
    ensures e in Apply(l, r, clock, op).queue
  {
    hide Apply, Popped, Idle, Place;
    StepQueue(l, r, clock, op);
    var q, q' := r.queue, Apply(l, r, clock, op).queue;
    EntryUnique(q, e);
    match op
    case Tick(maxN, now) =>
      hide Sids;
      PopKeeps(q, Popped(l, r, maxN, now), e);
    case Remove(sid) =>
      hide Sids;
      WithoutMembers(q, {sid});
    case Reclaim(cutoff, now) =>
      hide Sids;
      WithoutMembers(q, Idle(r.seen, cutoff));
    case Enqueue(sid, score, _, _, _, _) =>
      hide Sids;
    case _ =>
  }

  lemma PopKeeps(q: seq<Entry>, n: nat, e: Entry)
    requires Distinct(q) && n <= |q| && e in q && e.sid in Sids(q[n..])
    ensures e in q[n..]
  {
    SidsAre(q[n..]);
    var i :| 0 <= i < |q[n..]| && q[n..][i].sid == e.sid;
    assert q[n + i].sid == e.sid;
    var j :| 0 <= j < |q| && q[j] == e;
    assert q[n..][i] == q[n + i];
  }

  lemma EntryUnique(q: seq<Entry>, e: Entry)
    requires Valid(q) && e in q
    ensures e.sid in Sids(q)
  {
    SidsAre(q);
  }

  /** In a sorted queue, being ahead is having the smaller (score, sid). */
  lemma PlaceOrder(q: seq<Entry>, a: Entry, b: Entry)
    requires Valid(q) && a in q && b in q && a != b
    ensures Place(q, a.sid) < Place(q, b.sid) <==> Before(a, b)
  {
    var i :| 0 <= i < |q| && q[i] == a;
    var j :| 0 <= j < |q| && q[j] == b;
    PlaceIs(q, i);
    PlaceIs(q, j);
    assert i < j ==> Before(a, b);
    assert j < i ==> Before(b, a);
  }

  /** The session stays in the queue all along the run. */
  predicate Stays(l: Limits, r: Room, es: seq<Event>, sid: Sid)
    decreases es
  {
    sid in Sids(r.queue) && (es == [] || Stays(l, Step(l, r, es[0]), es[1..], sid))
  }

  lemma EntryOf(q: seq<Entry>, sid: Sid) returns (e: Entry)
    requires sid in Sids(q)
    ensures e in q && e.sid == sid
  {
    e := q[Place(q, sid)];
  }

  lemma EntryStays(l: Limits, r: Room, event: Event, e: Entry)
    requires Inv(l, r) && e in r.queue && e.sid in Sids(Step(l, r, event).queue)
    ensures e in Step(l, r, event).queue
  {
    hide Inv, Apply, Sids;
    ExpireInv(l, r, event.clock);
    ScoresStay(l, Expire(r, event.clock), event.clock, event.op, e);
  }

  /** Nobody overtakes: of two sessions that stay queued, the one ahead stays ahead, over every run
    and whatever scores others join with. */
  lemma {:induction false} NobodyOvertakes(l: Limits, r: Room, es: seq<Event>, a: Sid, b: Sid)
    requires Inv(l, r) && Stays(l, r, es, a) && Stays(l, r, es, b)
    requires Place(r.queue, a) < Place(r.queue, b)
    ensures Place(Run(l, r, es).queue, a) < Place(Run(l, r, es).queue, b)
    decreases es
  {
    if es != [] {
      var r' := Step(l, r, es[0]);
      hide Inv, Step, Sids, Place;
      StepInv(l, r, es[0]);
      var x := EntryOf(r.queue, a);
      var y := EntryOf(r.queue, b);
      StaysNow(l, r', es[1..], a);
      StaysNow(l, r', es[1..], b);
      EntryStays(l, r, es[0], x);
      EntryStays(l, r, es[0], y);
      InvValid(l, r);
      InvValid(l, r');
      PlaceOrder(r.queue, x, y);
      PlaceOrder(r'.queue, x, y);
      NobodyOvertakes(l, r', es[1..], a, b);
    }
  }

  lemma StaysNow(l: Limits, r: Room, es: seq<Event>, sid: Sid)
    requires Stays(l, r, es, sid)
    ensures sid in Sids(r.queue)
  {
  }

  lemma InvValid(l: Limits, r: Room)
    requires Inv(l, r)
    ensures Valid(r.queue)
  {
  }

  /** Whoever joins gets a score above every queued one. */
  ghost predicate FreshScores(l: Limits, r: Room, es: seq<Event>)
    decreases es
  {
    es == [] || (FreshScore(r, es[0].op) && FreshScores(l, Step(l, r, es[0]), es[1..]))
  }

  ghost predicate FreshScore(r: Room, op: Op) {
    op.Enqueue? && op.sid !in Sids(r.queue) ==> forall x :: x in r.queue ==> x.score < op.score
  }

  /** A step never moves a waiter back, and a tick moves it forward by what it pops. */
  lemma StepPlace(l: Limits, r: Room, clock: int, op: Op, sid: Sid)
    requires Inv(l, r) && FreshScore(r, op)
    requires sid in Sids(r.queue) && sid in Sids(Apply(l, r, clock, op).queue)
    ensures Place(Apply(l, r, clock, op).queue, sid) <= Place(r.queue, sid)
    ensures op.Tick? ==> Place(Apply(l, r, clock, op).queue, sid) == Place(r.queue, sid) - Popped(l, r, op.maxN, op.now)
  {
    hide Apply, Popped, Idle, Sids, Place, Inv, Insert;
    InvValid(l, r);
    StepQueue(l, r, clock, op);
    var q := r.queue;
    match op
    case Enqueue(s, score, _, _, _, _) =>
      if s !in Sids(q) {
        FreshGoesLast(q, Entry(s, score));
        PlaceInLonger(q, [Entry(s, score)], sid);
      }
    case Tick(maxN, now) => PopPlace(q, Popped(l, r, maxN, now), sid);
    case Remove(s) =>
      WithoutMembers(q, {s});
      WithoutPlace(q, {s}, sid);
    case Reclaim(cutoff, now) =>
      WithoutMembers(q, Idle(r.seen, cutoff));
      WithoutPlace(q, Idle(r.seen, cutoff), sid);
    case Flush => NoneQueued();
    case _ =>
  }

  lemma NoneQueued()
    ensures Sids([]) == {}
  {
  }

  lemma {:induction false} PlaceInLonger(q: seq<Entry>, more: seq<Entry>, sid: Sid)
    requires sid in Sids(q)
    ensures Place(q + more, sid) == Place(q, sid)
  {
    if q[0].sid != sid {
      assert (q + more)[1..] == q[1..] + more;
      PlaceInLonger(q[1..], more, sid);
    }
  }

  lemma PopPlace(q: seq<Entry>, n: nat, sid: Sid)
    requires Distinct(q) && n <= |q| && sid in Sids(q) && sid in Sids(q[n..])
    ensures Place(q[n..], sid) == Place(q, sid) - n
  {
    SidsAre(q[n..]);
    var i :| 0 <= i < |q[n..]| && q[n..][i].sid == sid;
    assert q[n + i].sid == sid;
    PlaceIs(q, n + i);
    PlaceAfterPop(q, n, sid);
  }

  // ----- progress

  /** A tick that can pop somebody: the room is open, a slot is free, and the bucket gained at
    least one token since it was written. */
  predicate Helpful(l: Limits, r: Room, op: Op) {
    && op.Tick? && op.maxN >= 1 && !r.closed
    && (l.capacity > 0 ==> |Purge(r, op.now).admitted| < l.capacity)
    && (l.rate > 0.0 && r.bucket.Some? ==> Refill(l, op.now - r.bucket.value.ts) >= 1.0)
  }

  /** The number of helpful ticks of a run. */
  function Help(l: Limits, r: Room, es: seq<Event>): (n: nat)
    decreases es
  {
    if es == [] then 0
    else (if Helpful(l, Expire(r, es[0].clock), es[0].op) then 1 else 0) + Help(l, Step(l, r, es[0]), es[1..])
  }

  lemma HelpfulPops(l: Limits, r: Room, op: Op)
    requires Inv(l, r) && Helpful(l, r, op) && r.queue != []
    ensures Popped(l, r, op.maxN, op.now) >= 1
  {
    hide Refill, Lapsed, Mark;
    if l.rate > 0.0 {
      assert Available(l, r.bucket, op.now) >= 1.0;
    }
  }

  lemma SomebodyQueued(q: seq<Entry>, sid: Sid)
    requires sid in Sids(q)
    ensures q != []
  {
  }

  /** Bounded progress: while a waiter stays queued, its place and the helpful ticks seen so far
    never add up to more than its first place. */
  lemma {:induction false} Progress(l: Limits, r: Room, es: seq<Event>, sid: Sid)
    requires Inv(l, r) && FreshScores(l, r, es) && Stays(l, r, es, sid)
    ensures Place(Run(l, r, es).queue, sid) + Help(l, r, es) <= Place(r.queue, sid)
    decreases es
  {
    if es != [] {
      var e := es[0];
      var x, r' := Expire(r, e.clock), Step(l, r, e);
      hide Inv, Apply, Sids, Place, Helpful, Popped;
      StaysNow(l, r', es[1..], sid);
      ExpireInv(l, r, e.clock);
      StepInv(l, r, e);
      ExpireFresh(r, e);
      StepPlace(l, x, e.clock, e.op, sid);
      if Helpful(l, x, e.op) {
        SomebodyQueued(x.queue, sid);
        HelpfulPops(l, x, e.op);
        HelpfulTicks(l, x, e.op);
      }
      Progress(l, r', es[1..], sid);
    }
  }

  lemma HelpfulTicks(l: Limits, r: Room, op: Op)
    requires Helpful(l, r, op)
    ensures op.Tick?
  {
  }

  lemma ExpireFresh(r: Room, e: Event)
    requires FreshScore(r, e.op)
    ensures FreshScore(Expire(r, e.clock), e.op)
  {
  }

  /** A waiter at 1-indexed position p is out of the queue after at most p helpful ticks. */
  lemma LeavesInTime(l: Limits, r: Room, es: seq<Event>, sid: Sid)
    requires Inv(l, r) && FreshScores(l, r, es)
    requires Help(l, r, es) >= Place(r.queue, sid) + 1
    ensures !Stays(l, r, es, sid)
  {
    hide Inv, FreshScores, Stays, Help, Place;
    if Stays(l, r, es, sid) {
      Progress(l, r, es, sid);
    }
  }

  /** Without helpful ticks in the count: places never increase. */
  lemma PlacesNeverIncrease(l: Limits, r: Room, es: seq<Event>, sid: Sid)
    requires Inv(l, r) && FreshScores(l, r, es) && Stays(l, r, es, sid)
    ensures Place(Run(l, r, es).queue, sid) <= Place(r.queue, sid)
  {
    Progress(l, r, es, sid);
  }

  // ----- never admitted twice

  /** The step puts the session in the queue. */
  predicate Joins(l: Limits, r: Room, e: Event, sid: Sid) {
    e.op.Enqueue? && e.op.sid == sid && sid !in Sids(r.queue) && sid in Sids(Step(l, r, e).queue)
  }

  predicate NeverJoins(l: Limits, r: Room, es: seq<Event>, sid: Sid)
    decreases es
  {
    es == [] || (!Joins(l, r, es[0], sid) && NeverJoins(l, Step(l, r, es[0]), es[1..], sid))
  }

  lemma OnlyJoiningQueues(l: Limits, r: Room, e: Event, sid: Sid)
    requires sid !in Sids(r.queue) && !Joins(l, r, e, sid)
    ensures sid !in Sids(Step(l, r, e).queue)
    ensures sid !in Returned(l, r, e)
  {
    var x := Expire(r, e.clock);
    hide Apply, Popped, Idle, Place, Insert, Sids, Present;
    StepQueue(l, x, e.clock, e.op);
    match e.op
    case Tick(maxN, now) =>
      var n := Popped(l, x, maxN, now);
      TickShape(l, x, e.clock, maxN, now);
      PopSubset(x.queue, n);
      PresentSubset(x.queue[..n], x.sessions);
    case Remove(s) => WithoutMembers(x.queue, {s});
    case Reclaim(cutoff, now) => WithoutMembers(x.queue, Idle(x.seen, cutoff));
    case Enqueue(s, score, _, _, _, _) => InsertSids(x.queue, Entry(s, score));
    case Flush => NoneQueued();
    case _ =>
  }

  lemma PopSubset(q: seq<Entry>, n: nat)
    requires n <= |q|
    ensures Sids(q[..n]) <= Sids(q) && Sids(q[n..]) <= Sids(q)
  {
    assert q == q[..n] + q[n..];
    SidsConcat(q[..n], q[n..]);
  }

  lemma {:induction false} PresentSubset(popped: seq<Entry>, m: map<Sid, Meta>)
    ensures forall s :: s in Present(popped, m) ==> s in Sids(popped)
  {
    if popped != [] {
      PresentSubset(popped[1..], m);
    }
  }

  lemma {:induction false} NotReturnedWithoutJoining(l: Limits, r: Room, es: seq<Event>, sid: Sid)
    requires sid !in Sids(r.queue) && NeverJoins(l, r, es, sid)
    ensures sid !in Admissions(l, r, es)
    decreases es
  {
    if es != [] {
      hide Step, Returned, Sids;
      OnlyJoiningQueues(l, r, es[0], sid);
      NotReturnedWithoutJoining(l, Step(l, r, es[0]), es[1..], sid);
    }
  }

  /** A session returned by a tick is returned once by it, and by no later tick unless an enqueue
    puts it back in the queue first. */
  lemma NeverAdmittedTwice(l: Limits, r: Room, e: Event, es: seq<Event>, sid: Sid)
    requires Inv(l, r) && sid in Returned(l, r, e)
    requires NeverJoins(l, Step(l, r, e), es, sid)
    ensures multiset(Returned(l, r, e))[sid] == 1
    ensures sid !in Admissions(l, Step(l, r, e), es)
  {
    var x := Expire(r, e.clock);
    hide Inv, Sids, Present, Popped, NeverJoins, Admissions;
    ExpireInv(l, r, e.clock);
    var n := Popped(l, x, e.op.maxN, e.op.now);
    TickShape(l, x, e.clock, e.op.maxN, e.op.now);
    InvDistinct(l, x, n);
    PresentIs(x.queue[..n], x.sessions);
    PresentSubset(x.queue[..n], x.sessions);
    PopSids(x.queue, n);
    NotReturnedWithoutJoining(l, Step(l, r, e), es, sid);
  }
}
