/** Slots whose sessions keep their hashes and do not queue again: how the times to live of hashes
  and the care of redeeming keep ticks from cutting the slots of passes. */
module Lifetimes {
  import opened Types
  import opened ZSet
  import opened Scripts
  import opened Runs
  import opened Invariants
  import opened Fairness
  import opened Exchange
  import opened Passes

  /** A session whose slot has not lapsed does not queue and has its hash. */
  ghost predicate Sound(r: Room, clock: int) {
    forall s :: s in r.admitted && r.admitted[s] > clock ==> s !in Sids(r.queue) && s in r.sessions
  }

  /** The grant finds no lapsed slot of a session that lost its hash or queues again. */
  ghost predicate Grantable(r: Room, clock: int, sid: Sid) {
    sid in r.admitted ==> Live(r, sid, clock) || (sid in r.sessions && sid !in Sids(r.queue))
  }

  /** No hash of a session with a live slot is removed, by its time to live or by abandoning; only
    redeeming holds slots, and when it revives a lapsed one, the session has its hash and does not
    queue again. */
  ghost predicate Undisturbed(w: World, h: Happening) {
    LiveHashesStay(w, h) && Careful(w, h)
  }

  ghost predicate LiveHashesStay(w: World, h: Happening) {
    forall s :: Live(w.room, s, h.clock) && s in w.room.sessions ==> s in Tidy(w, h.clock).room.sessions
  }

  ghost predicate Careful(w: World, h: Happening) {
    var x := Tidy(w, h.clock).room;
    match h.act
    case Store(op) => !op.Flush? && !op.Hold? && (op.Remove? ==> !Live(x, op.sid, h.clock))
    case Grant(t, _, _) => t in w.pending ==> Grantable(x, h.clock, t.sid)
    case _ => true
  }

  ghost predicate AllUndisturbed(c: Config, w: World, hs: seq<Happening>)
    decreases hs
  {
    hs == [] || (Undisturbed(w, hs[0]) && AllUndisturbed(c, Next(c, w, hs[0]), hs[1..]))
  }

  // ----- steps

  lemma TickSound(l: Limits, r: Room, clock: int, maxN: int)
    requires Inv(l, r) && Sound(r, clock)
    ensures var r' := Scripts.Tick(l, r, clock, maxN, clock).0;
            Sound(r', clock)
  {
    var n := Popped(l, r, maxN, clock);
    hide Inv, Sids, Place, Present, Popped, Scripts.Tick, Mark, Lapsed, Sound;
    InvDistinct(l, r, n);
    TickShape(l, r, clock, maxN, clock);
    PopSids(r.queue, n);
    PopSubset(r.queue, n);
    LapsedAre(r.admitted, clock);
    MarkKeys(r.sessions, Lapsed(r.admitted, clock), Expired);
    MarkKeys(Mark(r.sessions, Lapsed(r.admitted, clock), Expired), Sids(r.queue[..n]) * r.sessions.Keys, Admitted);
    AdmittingSound(r, Scripts.Tick(l, r, clock, maxN, clock).0, Sids(r.queue[..n]), Lapsed(r.admitted, clock),
                   clock, clock + l.grace);
  }

  /** Slots are freed when they lapse and given to sessions that leave the queue. */
  lemma AdmittingSound(r: Room, r': Room, popped: set<Sid>, lapsed: set<Sid>, clock: int, deadline: int)
    requires Sound(r, clock) && popped <= Sids(r.queue)
    requires Sids(r'.queue) == Sids(r.queue) - popped && r'.sessions.Keys == r.sessions.Keys
    requires forall s :: s in lapsed <==> s in r.admitted && r.admitted[s] <= clock
    requires r'.admitted == (r.admitted - lapsed) + (map s | s in popped * r.sessions.Keys :: deadline)
    ensures Sound(r', clock)
  {
    hide Sids;
  }

  lemma LapsedAre(m: map<Sid, int>, now: int)
    ensures forall s :: s in Lapsed(m, now) <==> s in m && m[s] <= now
  {
  }

  lemma MarkKeys(m: map<Sid, Meta>, who: set<Sid>, status: Status)
    ensures Mark(m, who, status).Keys == m.Keys
  {
  }

  lemma ReclaimSound(l: Limits, r: Room, clock: int, cutoff: int)
    requires Inv(l, r) && Sound(r, clock)
    ensures var r' := Scripts.Reclaim(r, cutoff, clock).0;
            Sound(r', clock)
  {
    assert r.seen.Keys == Sids(r.queue);
    hide Inv, Sids, Sound, Scripts.Reclaim, Idle, Lapsed;
    ReclaimShape(r, cutoff, clock);
    LapsedAre(r.admitted, clock);
    IdleAre(r.seen, cutoff);
    DroppingSound(r, Scripts.Reclaim(r, cutoff, clock).0, Idle(r.seen, cutoff), Lapsed(r.admitted, clock), clock);
  }

  lemma ReclaimShape(r: Room, cutoff: int, now: int)
    ensures var r' := Scripts.Reclaim(r, cutoff, now).0;
            && Sids(r'.queue) == Sids(r.queue) - Idle(r.seen, cutoff)
            && r'.admitted == r.admitted - Lapsed(r.admitted, now)
            && r'.sessions.Keys == r.sessions.Keys - Idle(r.seen, cutoff)
  {
    WithoutMembers(r.queue, Idle(r.seen, cutoff));
    MarkKeys(DropIdle(r, cutoff).sessions, Lapsed(r.admitted, now), Expired);
    hide Sids, Idle, Lapsed, Mark;
  }

  /** Slots are freed when they lapse, and hashes dropped only of sessions that queue. */
  lemma DroppingSound(r: Room, r': Room, idle: set<Sid>, lapsed: set<Sid>, clock: int)
    requires Sound(r, clock) && idle <= Sids(r.queue)
    requires Sids(r'.queue) == Sids(r.queue) - idle && r'.sessions.Keys == r.sessions.Keys - idle
    requires forall s :: s in lapsed <==> s in r.admitted && r.admitted[s] <= clock
    requires r'.admitted == r.admitted - lapsed
    ensures Sound(r', clock)
  {
    hide Sids;
  }

  lemma IdleAre(seen: map<Sid, int>, cutoff: int)
    ensures Idle(seen, cutoff) <= seen.Keys
  {
  }

  lemma RemoveSound(r: Room, clock: int, sid: Sid)
    requires Sound(r, clock) && !Live(r, sid, clock)
    ensures var r' := Scripts.Remove(r, sid).0;
            Sound(r', clock)
  {
    WithoutMembers(r.queue, {sid});
    hide Sids;
  }

  lemma EnqueueSound(l: Limits, r: Room, clock: int, op: Op)
    requires op.Enqueue? && Sound(r, clock)
    ensures Sound(Apply(l, r, clock, op), clock)
  {
    InsertSids(r.queue, Entry(op.sid, op.score));
    hide Sids, Insert, Place;
  }

  lemma PollSound(l: Limits, r: Room, clock: int, op: Op)
    requires op.Poll? && Sound(r, clock)
    ensures Sound(Apply(l, r, clock, op), clock)
  {
    hide Sids, Place;
  }

  lemma StoreSound(l: Limits, r: Room, clock: int, op: Op)
    requires Inv(l, r) && Sound(r, clock) && InTime(Event(clock, op))
    requires !op.Flush? && !op.Hold? && (op.Remove? ==> !Live(r, op.sid, clock))
    ensures Sound(Apply(l, r, clock, op), clock)
  {
    match op
    case Enqueue(_, _, _, _, _, _) => EnqueueSound(l, r, clock, op);
    case Poll(_, _, _) => PollSound(l, r, clock, op);
    case Tick(maxN, now) =>
      hide Inv, Sound, Scripts.Tick;
      TickSound(l, r, clock, maxN);
    case Reclaim(cutoff, now) =>
      hide Inv, Sound, Scripts.Reclaim;
      ReclaimSound(l, r, clock, cutoff);
    case Remove(sid) =>
      hide Inv, Sound, Scripts.Remove;
      RemoveSound(r, clock, sid);
    case Release(_) =>
      hide Inv, Sids;
    case _ =>
      hide Inv, Sids;
  }

  /** Exactly then a hold leaves no session with a slot that has not lapsed queueing or without a
    hash. */
  lemma HoldSound(c: Config, r: Room, clock: int, sid: Sid)
    requires Sound(r, clock) && c.admittedTtl > 0
    ensures Sound(Scripts.Hold(r, clock, sid, clock, c.admittedTtl).0, clock) <==> Grantable(r, clock, sid)
  {
    hide Sids;
  }

  lemma SoundWaits(w: World, h: Happening, from: int)
    requires Sound(w.room, from) && from <= h.clock && LiveHashesStay(w, h)
    ensures Sound(Tidy(w, h.clock).room, h.clock)
  {
    hide Sids;
    assert forall s :: Live(w.room, s, h.clock) ==> Live(w.room, s, from);
  }

  lemma NextSound(c: Config, w: World, h: Happening, from: int)
    requires Inv(c.limits, w.room) && Sound(w.room, from) && c.admittedTtl > 0
    requires Synchronous(from, [h]) && Undisturbed(w, h)
    ensures Sound(Next(c, w, h).room, h.clock)
  {
    SoundWaits(w, h, from);
    ExpireInv(c.limits, w.room, h.clock);
    var x := Tidy(w, h.clock);
    hide Inv, Sids, Sound, Apply, Output, Issue, Verify, Expire;
    match h.act
    case Store(op) => StoreSound(c.limits, x.room, h.clock, op);
    case Grant(t, _, _) => HoldSound(c, x.room, h.clock, t.sid);
    case _ => SameSound(x, Do(c, x, h), h.clock);
  }

  lemma SameSound(w: World, w': World, clock: int)
    requires Sound(w.room, clock) && w'.room == w.room.(nonces := w'.room.nonces)
    ensures Sound(w'.room, clock)
  {
    hide Sids;
  }

  /** A live slot whose session does not queue is not cut. */
  lemma SoundNotCut(c: Config, w: World, h: Happening, from: int)
    requires Covered(w, from) && Sound(w.room, from) && from <= h.clock
    ensures !Cuts(c, w, h)
  {
    if Cuts(c, w, h) {
      var x, op := Tidy(w, h.clock), h.act.op;
      CoverWaits(w, from, h.clock);
      var k :| 0 <= k < |x.log| && Active(x.log, k, h.clock) && IsCut(c, x, h.clock, op, x.log[k].pass);
      var s := x.log[k].pass.sid;
      hide Sids, Output, Apply;
      OnlyJoiningQueues(c.limits, w.room, Event(h.clock, op), s);
    }
  }

  lemma {:induction false} UndisturbedNeverCuts(c: Config, w: World, hs: seq<Happening>, from: int)
    requires Inv(c.limits, w.room) && Dated(c, w, from) && Covered(w, from) && Sound(w.room, from) && c.admittedTtl > 0
    requires AllOrdinary(from, hs) && AllUndisturbed(c, w, hs)
    ensures NeverCuts(c, w, hs)
    decreases hs
  {
    if hs != [] {
      hide Inv, Dated, Covered, Sound, Next, Cuts, Ordinary, Undisturbed;
      assert hs[0] in hs && forall h :: h in hs[1..] ==> h in hs;
      SoundNotCut(c, w, hs[0], from);
      CoveredExactly(c, w, hs[0], from);
      NextInv(c, w, hs[0]);
      NextDated(c, w, hs[0], from);
      NextSound(c, w, hs[0], from);
      UndisturbedNeverCuts(c, Next(c, w, hs[0]), hs[1..], hs[0].clock);
    }
  }

  /** Without flushes, with holds only by redeeming, with the hashes of live slots kept, and without
    revivals of lapsed slots for sessions that are gone or queue again, passes never outnumber the
    capacity. */
  lemma PassesWithinCapacityUndisturbed(c: Config, hs: seq<Happening>, from: int, m: int)
    requires c.limits.capacity > 0 && c.admittedTtl > 0
    requires AllOrdinary(from, hs) && AllUndisturbed(c, EMPTY_WORLD, hs) && Latest(from, hs) <= m
    ensures |Holders(After(c, EMPTY_WORLD, hs).log, m)| <= c.limits.capacity
  {
    NothingCovered(c, from);
    UndisturbedNeverCuts(c, EMPTY_WORLD, hs, from);
    hide After, AllUndisturbed, NeverCuts, Holders, Ordinary;
    PassesWithinCapacity(c, hs, from, m);
  }

  // ----- when hashes outlive slots

  /** A tick only returns sessions whose hash will last for the whole grace window, that is, which
    were refreshed recently enough. */
  ghost predicate FreshlyPopped(c: Config, w: World, h: Happening) {
    var x := Tidy(w, h.clock).room;
    h.act.Store? ==> forall s :: s in Output(c.limits, x, h.clock, h.act.op) ==>
      s in x.sessions && h.clock + c.limits.grace <= x.sessions[s].expireAt
  }

  ghost predicate AllFresh(c: Config, w: World, hs: seq<Happening>)
    decreases hs
  {
    hs == [] || (Careful(w, hs[0]) && FreshlyPopped(c, w, hs[0]) && AllFresh(c, Next(c, w, hs[0]), hs[1..]))
  }

  /** The hash of a live slot lasts at least as long as the slot. */
  ghost predicate Outlives(r: Room, clock: int) {
    forall s :: Live(r, s, clock) && s in r.sessions ==> r.admitted[s] <= r.sessions[s].expireAt
  }

  lemma OutlivesWaits(w: World, h: Happening, from: int)
    requires Outlives(w.room, from) && from <= h.clock
    ensures LiveHashesStay(w, h) && Outlives(Tidy(w, h.clock).room, h.clock)
  {
    assert forall s :: Live(w.room, s, h.clock) ==> Live(w.room, s, from);
  }

  lemma TickOutlives(l: Limits, r: Room, clock: int, maxN: int)
    requires Inv(l, r) && Sound(r, clock) && Outlives(r, clock)
    requires forall s :: s in Scripts.Tick(l, r, clock, maxN, clock).1 ==>
               s in r.sessions && clock + l.grace <= r.sessions[s].expireAt
    ensures Outlives(Scripts.Tick(l, r, clock, maxN, clock).0, clock)
  {
    var n := Popped(l, r, maxN, clock);
    var who := Sids(r.queue[..n]) * r.sessions.Keys;
    var marked := Mark(r.sessions, Lapsed(r.admitted, clock), Expired);
    hide Inv, Sids, Place, Present, Popped, Scripts.Tick, Mark, Lapsed, Sound;
    InvDistinct(l, r, n);
    TickShape(l, r, clock, maxN, clock);
    PresentIs(r.queue[..n], r.sessions);
    SameMembers(Present(r.queue[..n], r.sessions), who);
    MarkKeys(r.sessions, Lapsed(r.admitted, clock), Expired);
    MarkKeys(marked, who, Admitted);
    MarkKeeps(r.sessions, Lapsed(r.admitted, clock), Expired);
    MarkKeeps(marked, who, Admitted);
  }

  lemma JoinOutlives(l: Limits, r: Room, clock: int, op: Op)
    requires (op.Enqueue? || op.Poll?) && Sound(r, clock) && Outlives(r, clock)
    ensures Outlives(Apply(l, r, clock, op), clock)
  {
    hide Sids, Place, AddNX;
  }

  lemma ReclaimOutlives(r: Room, clock: int, cutoff: int)
    requires Outlives(r, clock)
    ensures Outlives(Scripts.Reclaim(r, cutoff, clock).0, clock)
  {
    var dropped := DropIdle(r, cutoff);
    MarkKeys(dropped.sessions, Lapsed(r.admitted, clock), Expired);
    MarkKeeps(dropped.sessions, Lapsed(r.admitted, clock), Expired);
    hide Sids, Without, Idle, Lapsed, Mark;
  }

  lemma StoreOutlives(l: Limits, r: Room, clock: int, op: Op)
    requires Inv(l, r) && Sound(r, clock) && Outlives(r, clock) && InTime(Event(clock, op))
    requires !op.Flush? && !op.Hold?
    requires forall s :: s in Output(l, r, clock, op) ==> s in r.sessions && clock + l.grace <= r.sessions[s].expireAt
    ensures Outlives(Apply(l, r, clock, op), clock)
  {
    match op
    case Enqueue(_, _, _, _, _, _) => JoinOutlives(l, r, clock, op);
    case Poll(_, _, _) => JoinOutlives(l, r, clock, op);
    case Tick(maxN, now) =>
      hide Inv, Sound, Outlives, Scripts.Tick;
      TickOutlives(l, r, clock, maxN);
    case Reclaim(cutoff, now) =>
      hide Inv, Sound, Outlives, Scripts.Reclaim;
      ReclaimOutlives(r, clock, cutoff);
    case _ =>
      hide Inv, Sound, Sids, Without;
  }

  lemma DoOutlives(c: Config, w: World, h: Happening)
    requires Inv(c.limits, w.room) && Sound(w.room, h.clock) && Outlives(w.room, h.clock) && c.admittedTtl > 0
    requires w == Tidy(w, h.clock) && Careful(w, h) && FreshlyPopped(c, w, h) && Synchronous(h.clock, [h])
    ensures Outlives(Do(c, w, h).room, h.clock)
  {
    match h.act
    case Store(op) =>
      hide Inv, Sound, Outlives, Apply, Output, Expire;
      StoreOutlives(c.limits, w.room, h.clock, op);
    case _ =>
      hide Inv, Sound, Issue, Verify, Sids, Expire;
  }

  lemma {:induction false} FreshIsUndisturbed(c: Config, w: World, hs: seq<Happening>, from: int)
    requires Inv(c.limits, w.room) && Sound(w.room, from) && Outlives(w.room, from) && c.admittedTtl > 0
    requires AllFresh(c, w, hs) && Synchronous(from, hs)
    ensures AllUndisturbed(c, w, hs) && forall h :: h in hs ==> Ordinary(h)
    decreases hs
  {
    if hs != [] {
      var h := hs[0];
      var x := Tidy(w, h.clock);
      CarefulIsOrdinary(w, h);
      hide Outlives, Do, Output, Sound, LiveHashesStay, Ordinary, Careful, Inv;
      OutlivesWaits(w, h, from);
      assert Undisturbed(w, h);
      NextInv(c, w, h);
      NextSound(c, w, h, from);
      ExpireInv(c.limits, w.room, h.clock);
      SoundWaits(w, h, from);
      TidyTwice(c, w, h);
      DoOutlives(c, x, h);
      FreshIsUndisturbed(c, Next(c, w, h), hs[1..], h.clock);
      assert hs == [h] + hs[1..];
    }
  }

  lemma CarefulIsOrdinary(w: World, h: Happening)
    requires Careful(w, h)
    ensures Ordinary(h)
  {
  }

  lemma TidyTwice(c: Config, w: World, h: Happening)
    ensures var x := Tidy(w, h.clock);
            && Tidy(x, h.clock) == x
            && (Careful(w, h) ==> Careful(x, h)) && (FreshlyPopped(c, w, h) ==> FreshlyPopped(c, x, h))
  {
    assert Expire(Expire(w.room, h.clock), h.clock) == Expire(w.room, h.clock);
    hide Expire, Output, Sids;
  }

  /** So it is enough that ticks pop recently refreshed sessions, that nobody abandons a live slot,
    and that lapsed slots are not revived for sessions that are gone or queue again. */
  lemma PassesWithinCapacityWhenFresh(c: Config, hs: seq<Happening>, from: int, m: int)
    requires c.limits.capacity > 0 && c.admittedTtl > 0
    requires Synchronous(from, hs) && AllFresh(c, EMPTY_WORLD, hs) && Latest(from, hs) <= m
    ensures |Holders(After(c, EMPTY_WORLD, hs).log, m)| <= c.limits.capacity
  {
    EmptyInv(c.limits);
    FreshIsUndisturbed(c, EMPTY_WORLD, hs, from);
    hide After, AllFresh, AllUndisturbed, Holders, Ordinary;
    PassesWithinCapacityUndisturbed(c, hs, from, m);
  }
}
