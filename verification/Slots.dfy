/** The correspondence between the queue, the slots and the hashes: the runs in which it is exact,
  the runs in which nobody both queues and holds a slot, and a run in which somebody does. */
module Slots {
  import opened Types
  import opened ZSet
  import opened Scripts
  import opened Runs
  import opened Invariants
  import opened Fairness

  /** Every admitted session has a hash that says so, and does not queue. */
  ghost predicate Exact(r: Room) {
    forall s :: s in r.admitted ==>
      s in r.sessions && r.sessions[s].status == Admitted && s !in Sids(r.queue)
  }

  /** The step takes no hash from a session in the admitted set: none of them is past its time to
    live, none is abandoned, and holds are for a positive time. */
  ghost predicate KeepsHashes(r: Room, e: Event) {
    && (forall s :: s in r.admitted && s in r.sessions ==> e.clock <= r.sessions[s].expireAt)
    && (e.op.Remove? ==> e.op.sid !in r.admitted)
    && (e.op.Hold? && e.op.sid in r.admitted ==> e.op.seconds > 0)
  }

  ghost predicate HashesKept(l: Limits, r: Room, es: seq<Event>)
    decreases es
  {
    es == [] || (KeepsHashes(r, es[0]) && HashesKept(l, Step(l, r, es[0]), es[1..]))
  }

  lemma TickExact(l: Limits, r: Room, clock: int, maxN: int, now: int)
    requires Inv(l, r) && Exact(r)
    ensures Exact(Scripts.Tick(l, r, clock, maxN, now).0)
  {
    var n := Popped(l, r, maxN, now);
    hide Inv, Sids, Place, Present, Popped, Scripts.Tick, Lapsed, Exact, Mark;
    InvDistinct(l, r, n);
    TickShape(l, r, clock, maxN, now);
    PopSids(r.queue, n);
    PopSubset(r.queue, n);
    AdmittingExact(r, Scripts.Tick(l, r, clock, maxN, now).0, Sids(r.queue[..n]), Lapsed(r.admitted, now), now + l.grace);
  }

  /** Lapsed slots are freed and marked, popped sessions get slots and are marked. */
  lemma AdmittingExact(r: Room, r': Room, popped: set<Sid>, lapsed: set<Sid>, deadline: int)
    requires Exact(r) && popped <= Sids(r.queue) && Sids(r'.queue) == Sids(r.queue) - popped
    requires r'.admitted == (r.admitted - lapsed) + (map s | s in popped * r.sessions.Keys :: deadline)
    requires r'.sessions == Mark(Mark(r.sessions, lapsed, Expired), popped * r.sessions.Keys, Admitted)
    ensures Exact(r')
  {
    hide Sids;
  }

  lemma WithoutExact(r: Room, gone: set<Sid>)
    requires Exact(r) && gone !! r.admitted.Keys
    ensures Exact(r.(queue := Without(r.queue, gone), seen := r.seen - gone, sessions := r.sessions - gone))
  {
    WithoutMembers(r.queue, gone);
    hide Sids;
  }

  lemma PurgeExact(r: Room, now: int)
    requires Exact(r)
    ensures Exact(Purge(r, now))
  {
    hide Sids;
  }

  lemma ReclaimExact(l: Limits, r: Room, cutoff: int, now: int)
    requires Inv(l, r) && Exact(r)
    ensures Exact(Scripts.Reclaim(r, cutoff, now).0)
  {
    hide Sids, Valid, Purge;
    WithoutExact(r, Idle(r.seen, cutoff));
    PurgeExact(DropIdle(r, cutoff), now);
  }

  lemma EnqueueExact(l: Limits, r: Room, clock: int, op: Op)
    requires op.Enqueue? && Exact(r)
    ensures Exact(Apply(l, r, clock, op))
  {
    InsertSids(r.queue, Entry(op.sid, op.score));
    hide Sids, Insert, Place;
  }

  lemma StepExact(l: Limits, r: Room, e: Event)
    requires Inv(l, r) && Exact(r) && KeepsHashes(r, e)
    ensures Exact(Step(l, r, e))
  {
    var x := Expire(r, e.clock);
    ExpireInv(l, r, e.clock);
    ExpireExact(r, e);
    hide Inv, Exact, Expire, Apply;
    match e.op
    case Enqueue(_, _, _, _, _, _) => EnqueueExact(l, x, e.clock, e.op);
    case Poll(_, _, _) => PollExact(l, x, e.clock, e.op);
    case _ => OtherExact(l, x, e.clock, e.op);
  }

  lemma ExpireExact(r: Room, e: Event)
    requires Exact(r) && KeepsHashes(r, e)
    ensures Exact(Expire(r, e.clock)) && KeepsHashes(Expire(r, e.clock), e)
  {
    hide Sids;
  }

  lemma OtherExact(l: Limits, r: Room, clock: int, op: Op)
    requires !op.Enqueue? && !op.Poll? && Inv(l, r) && Exact(r) && KeepsHashes(r, Event(clock, op))
    ensures Exact(Apply(l, r, clock, op))
  {
    hide Inv, Sids, Scripts.Tick, Scripts.Reclaim, Scripts.Remove;
    match op
    case Tick(maxN, now) => TickExact(l, r, clock, maxN, now);
    case Reclaim(cutoff, now) => ReclaimExact(l, r, cutoff, now);
    case Remove(sid) => RemoveExact(r, sid);
    case _ =>
  }

  lemma RemoveExact(r: Room, sid: Sid)
    requires Exact(r) && sid !in r.admitted
    ensures Exact(Scripts.Remove(r, sid).0)
  {
    hide Exact;
    WithoutExact(r, {sid});
  }

  lemma PollExact(l: Limits, r: Room, clock: int, op: Op)
    requires op.Poll? && Exact(r)
    ensures Exact(Apply(l, r, clock, op))
  {
    hide Sids, Place;
  }

  lemma {:induction false} RunExact(l: Limits, r: Room, es: seq<Event>)
    requires Inv(l, r) && Exact(r) && HashesKept(l, r, es)
    ensures Exact(Run(l, r, es))
    decreases es
  {
    if es != [] {
      hide Inv, Exact, Step, KeepsHashes;
      StepInv(l, r, es[0]);
      StepExact(l, r, es[0]);
      RunExact(l, Step(l, r, es[0]), es[1..]);
    }
  }

  /** In every run from an empty room in which no session in the admitted set loses its hash, the
    queue and the admitted set are disjoint, every admitted session has a hash, and a hash says
    "admitted" exactly when its session is in the admitted set. */
  lemma QueueAndSlotsAgree(l: Limits, es: seq<Event>)
    requires HashesKept(l, EMPTY_ROOM, es)
    ensures var r := Run(l, EMPTY_ROOM, es);
            && Sids(r.queue) !! r.admitted.Keys
            && r.admitted.Keys <= r.sessions.Keys
            && forall s :: s in r.sessions ==> (r.sessions[s].status == Admitted <==> s in r.admitted)
  {
    EmptyInv(l);
    RunInv(l, EMPTY_ROOM, es);
    RunExact(l, EMPTY_ROOM, es);
    hide Sids, Run;
  }

  // ----- exactly when they agree

  /** Nobody both queues and holds a slot, every slot has a hash, and "admitted" in a hash means
    exactly a slot. */
  ghost predicate Agree(r: Room) {
    && Apart(r)
    && r.admitted.Keys <= r.sessions.Keys
    && forall s :: s in r.sessions ==> (r.sessions[s].status == Admitted <==> s in r.admitted)
  }

  ghost predicate Apart(r: Room) {
    Sids(r.queue) !! r.admitted.Keys
  }

  /** They agree at every moment: when keys expire and after every step. */
  ghost predicate AgreeThroughout(l: Limits, r: Room, es: seq<Event>)
    decreases es
  {
    es == [] ||
    (Agree(Expire(r, es[0].clock)) && Agree(Step(l, r, es[0])) && AgreeThroughout(l, Step(l, r, es[0]), es[1..]))
  }

  lemma AgreeIsExact(l: Limits, r: Room)
    requires Inv(l, r)
    ensures Agree(r) <==> Exact(r)
  {
    hide Sids;
  }

  /** A step that takes a hash from a session in the admitted set leaves it behind. */
  lemma LostHashShows(l: Limits, r: Room, e: Event)
    requires Exact(r) && Exact(Expire(r, e.clock)) && Exact(Step(l, r, e))
    ensures KeepsHashes(r, e)
  {
    hide Sids;
    if e.op.Remove? {
      WithoutMembers(r.queue, {e.op.sid});
    }
  }

  lemma {:induction false} AgreeExactly(l: Limits, r: Room, es: seq<Event>)
    requires Inv(l, r) && Exact(r)
    ensures HashesKept(l, r, es) <==> AgreeThroughout(l, r, es)
    decreases es
  {
    if es != [] {
      var e := es[0];
      hide Inv, Exact, Agree, Step, KeepsHashes, Expire;
      StepInv(l, r, e);
      ExpireInv(l, r, e.clock);
      AgreeIsExact(l, Expire(r, e.clock));
      AgreeIsExact(l, Step(l, r, e));
      if KeepsHashes(r, e) {
        ExpireExact(r, e);
        StepExact(l, r, e);
        AgreeExactly(l, Step(l, r, e), es[1..]);
      } else if Agree(Expire(r, e.clock)) && Agree(Step(l, r, e)) {
        LostHashShows(l, r, e);
      }
    }
  }

  /** Over every run from an empty room queue, slots and hashes agree at every moment if and only
    if no session in the admitted set loses its hash. */
  lemma AgreeIffHashesKept(l: Limits, es: seq<Event>)
    ensures HashesKept(l, EMPTY_ROOM, es) <==> AgreeThroughout(l, EMPTY_ROOM, es)
  {
    EmptyInv(l);
    AgreeExactly(l, EMPTY_ROOM, es);
  }

  // ----- exactly when queue and slots overlap

  /** A session with a slot and without a hash joins: the script takes it for a new one. */
  predicate Rejoins(r: Room, op: Op) {
    op.Enqueue? && !r.closed && op.sid in r.admitted && op.sid !in r.sessions
  }

  /** Queue and slots stay apart in a step if and only if it is no such enqueue; after one they
    share exactly the session that joined. */
  lemma StaysApart(l: Limits, r: Room, clock: int, op: Op)
    requires Inv(l, r) && Apart(r)
    ensures var r' := Apply(l, r, clock, op);
            && (Apart(r') <==> !Rejoins(r, op))
            && (Rejoins(r, op) ==> Sids(r'.queue) * r'.admitted.Keys == {op.sid})
  {
    hide Inv, Sids, Place, Scripts.Tick, Insert, Lapsed, Idle, Mark;
    match op
    case Tick(maxN, now) =>
      hide Apart;
      TickApart(l, r, clock, maxN, now);
    case Enqueue(sid, score, _, _, _, _) => InsertSids(r.queue, Entry(sid, score));
    case Remove(sid) => WithoutMembers(r.queue, {sid});
    case Reclaim(cutoff, now) => WithoutMembers(r.queue, Idle(r.seen, cutoff));
    case Flush => NoneQueued();
    case _ =>
  }

  lemma TickApart(l: Limits, r: Room, clock: int, maxN: int, now: int)
    requires Inv(l, r) && Apart(r)
    ensures Apart(Scripts.Tick(l, r, clock, maxN, now).0)
  {
    var n := Popped(l, r, maxN, now);
    hide Inv, Sids, Scripts.Tick, Lapsed, Mark, Popped, Present;
    InvDistinct(l, r, n);
    TickShape(l, r, clock, maxN, now);
    PopSids(r.queue, n);
    PopSubset(r.queue, n);
  }

  ghost predicate ApartThroughout(l: Limits, r: Room, es: seq<Event>)
    decreases es
  {
    Apart(r) && (es == [] || ApartThroughout(l, Step(l, r, es[0]), es[1..]))
  }

  predicate NeverRejoins(l: Limits, r: Room, es: seq<Event>)
    decreases es
  {
    es == [] || (!Rejoins(Expire(r, es[0].clock), es[0].op) && NeverRejoins(l, Step(l, r, es[0]), es[1..]))
  }

  lemma {:induction false} ApartExactly(l: Limits, r: Room, es: seq<Event>)
    requires Inv(l, r) && Apart(r)
    ensures ApartThroughout(l, r, es) <==> NeverRejoins(l, r, es)
    decreases es
  {
    if es != [] {
      var x := Expire(r, es[0].clock);
      ExpireInv(l, r, es[0].clock);
      StepInv(l, r, es[0]);
      assert Apart(x);
      hide Inv, Apart, Apply, Expire, Rejoins;
      StaysApart(l, x, es[0].clock, es[0].op);
      if !Rejoins(x, es[0].op) {
        ApartExactly(l, Step(l, r, es[0]), es[1..]);
      } else {
        assert !ApartThroughout(l, Step(l, r, es[0]), es[1..]);
      }
    }
  }

  /** Over every run from an empty room, nobody ever both queues and holds a slot if and only if no
    session without a hash joins while it holds one. */
  lemma ApartIffNeverRejoins(l: Limits, es: seq<Event>)
    ensures ApartThroughout(l, EMPTY_ROOM, es) <==> NeverRejoins(l, EMPTY_ROOM, es)
  {
    EmptyInv(l);
    ApartExactly(l, EMPTY_ROOM, es);
  }

  /** A first tick admits a lone waiter, whatever the limits. */
  lemma LoneWaiterIsAdmitted(l: Limits, r: Room, clock: int, maxN: int, now: int, sid: Sid, score: real)
    requires Inv(l, r) && r.queue == [Entry(sid, score)] && sid in r.sessions
    requires !r.closed && r.admitted == map[] && r.bucket.None? && maxN > 0
    ensures var (r', out) := Scripts.Tick(l, r, clock, maxN, now);
            && r'.queue == [] && r'.seen == map[] && out == [sid]
            && r'.admitted == map[sid := now + l.grace]
            && r'.sessions == r.sessions[sid := r.sessions[sid].(status := Admitted)]
            && r'.closed == r.closed && r'.nonces == r.nonces
            && (l.rate <= 0.0 ==> r'.bucket == None)
  {
    LonePopped(l, r, maxN, now, sid);
    LoneMarked(r.sessions, sid);
    LoneIs(l, r, now, sid, score);
    hide Inv, Popped, Scripts.Tick, Sids, Present, Lapsed, Mark;
    TickShape(l, r, clock, maxN, now);
    TickLeaves(l, r, clock, maxN, now);
    assert r.queue[..1] == r.queue && r.queue[1..] == [];
    LoneSlot(r.admitted, {sid} * r.sessions.Keys, sid, now + l.grace);
  }

  lemma LoneIs(l: Limits, r: Room, now: int, sid: Sid, score: real)
    requires Inv(l, r) && r.queue == [Entry(sid, score)] && sid in r.sessions && r.admitted == map[]
    ensures Sids(r.queue) == {sid} && Present(r.queue, r.sessions) == [sid]
    ensures Lapsed(r.admitted, now) == {} && r.seen - {sid} == map[]
  {
  }

  lemma LoneMarked(m: map<Sid, Meta>, sid: Sid)
    requires sid in m
    ensures Mark(Mark(m, {}, Expired), {sid}, Admitted) == m[sid := m[sid].(status := Admitted)]
    ensures {sid} * m.Keys == {sid}
  {
    assert Mark(m, {}, Expired) == m;
  }

  lemma LoneSlot(m: map<Sid, int>, who: set<Sid>, sid: Sid, deadline: int)
    requires m == map[] && who == {sid}
    ensures (m - {}) + (map s | s in who :: deadline) == map[sid := deadline]
  {
  }

  lemma LonePopped(l: Limits, r: Room, maxN: int, now: int, sid: Sid)
    requires |r.queue| == 1 && !r.closed && r.admitted == map[] && r.bucket.None? && maxN > 0
    ensures Popped(l, r, maxN, now) == 1
  {
    hide Mark;
    assert Lapsed(r.admitted, now) == {};
  }

  lemma TickLeaves(l: Limits, r: Room, clock: int, maxN: int, now: int)
    ensures var r' := Scripts.Tick(l, r, clock, maxN, now).0;
            r'.closed == r.closed && r'.nonces == r.nonces && (l.rate <= 0.0 ==> r'.bucket == r.bucket)
  {
    hide Scripts.Tick, Popped, Present, Mark, Lapsed, Sids, BucketTtl, Available;
    TickIs(l, r, clock, maxN, now);
  }

  /** A tick that pops a lone waiter without a hash drops it. */
  lemma LoneWaiterIsDropped(l: Limits, r: Room, clock: int, maxN: int, now: int, sid: Sid, score: real)
    requires r.queue == [Entry(sid, score)] && sid !in r.sessions
    requires !r.closed && r.admitted == map[] && r.bucket.None? && maxN > 0
    ensures var (r', out) := Scripts.Tick(l, r, clock, maxN, now); r'.queue == [] && out == []
  {
    LonePopped(l, r, maxN, now, sid);
    assert Present(r.queue, r.sessions) == [];
    hide Popped, Scripts.Tick, Sids, Present, Lapsed, Mark;
    TickShape(l, r, clock, maxN, now);
    assert r.queue[..1] == r.queue && r.queue[1..] == [];
  }

  /** It does happen, in every room: join, be admitted, abandon, join again. */
  lemma SlotHolderQueuesAgain(l: Limits, sid: Sid, owner: Owner, ttl: int, maxN: int)
    requires ttl > 0 && maxN > 0
    ensures var es := [Event(0, Op.Enqueue(sid, 0.0, ttl, 0, owner, true)), Event(1, Op.Tick(maxN, 1)),
                       Event(2, Op.Remove(sid)), Event(3, Op.Enqueue(sid, 3.0, ttl, 0, owner, true))];
            var r := Run(l, EMPTY_ROOM, es);
            sid in Sids(r.queue) && sid in r.admitted
  {
    var e0, e1 := Event(0, Op.Enqueue(sid, 0.0, ttl, 0, owner, true)), Event(1, Op.Tick(maxN, 1));
    var e2, e3 := Event(2, Op.Remove(sid)), Event(3, Op.Enqueue(sid, 3.0, ttl, 0, owner, true));
    var r1 := Step(l, EMPTY_ROOM, e0);
    var r2 := Step(l, r1, e1);
    var r3 := Step(l, r2, e2);
    var r4 := Step(l, r3, e3);
    hide Run, Scripts.Tick;
    FirstJoin(l, 0, sid, 0.0, ttl, 0, owner, true);
    LoneWaiterIsAdmitted(l, Expire(r1, 1), 1, maxN, 1, sid, 0.0);
    assert r2 == Scripts.Tick(l, Expire(r1, 1), 1, maxN, 1).0;
    RejoinsAfterRemoval(l, r2, sid, 3.0, ttl, owner);
    RunFour(l, EMPTY_ROOM, e0, e1, e2, e3);
  }

  lemma FirstJoin(l: Limits, clock: int, sid: Sid, score: real, ttl: int, now: int, owner: Owner, check: bool)
    requires ttl > 0
    ensures var r := Step(l, EMPTY_ROOM, Event(clock, Op.Enqueue(sid, score, ttl, now, owner, check)));
            && r == Room([Entry(sid, score)], map[sid := now], map[], map[sid := Meta(Queued, owner, clock + ttl * 1000)],
                         None, false, map[])
            && Inv(l, r) && (forall at :: at <= clock + ttl * 1000 ==> Expire(r, at) == r)
  {
    EmptyInv(l);
    StepInv(l, EMPTY_ROOM, Event(clock, Op.Enqueue(sid, score, ttl, now, owner, check)));
  }

  lemma RejoinsAfterRemoval(l: Limits, r: Room, sid: Sid, score: real, ttl: int, owner: Owner)
    requires r.queue == [] && sid in r.admitted && !r.closed
    ensures var r' := Step(l, Step(l, r, Event(2, Op.Remove(sid))), Event(3, Op.Enqueue(sid, score, ttl, 0, owner, true)));
            sid in Sids(r'.queue) && sid in r'.admitted
  {
    var r' := Step(l, r, Event(2, Op.Remove(sid)));
    assert sid in r'.admitted && r'.queue == [] && sid !in r'.sessions && !r'.closed;
  }

  lemma RunFour(l: Limits, r: Room, a: Event, b: Event, c: Event, d: Event)
    ensures Run(l, r, [a, b, c, d]) == Step(l, Step(l, Step(l, Step(l, r, a), b), c), d)
  {
    hide Step;
    assert [a, b, c, d][1..] == [b, c, d] && [b, c, d][1..] == [c, d] && [c, d][1..] == [d] && [d][1..] == [];
    var r' := Step(l, Step(l, r, a), b);
    assert Run(l, Step(l, r', c), [d]) == Step(l, Step(l, r', c), d);
    assert Run(l, r', [c, d]) == Step(l, Step(l, r', c), d);
  }
}
