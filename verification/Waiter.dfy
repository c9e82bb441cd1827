/** Waiters keep their place: a session that keeps polling leaves the queue only by admission. */
module Waiter {
  import opened Types
  import opened ZSet
  import opened Scripts
  import opened Runs
  import opened Invariants
  import opened Fairness

  /** The session is queued and was refreshed at `beat`: it was seen in that second, and its hash
    lives at least until the last instant at which it may refresh itself again. */
  ghost predicate Alive(r: Room, w: Sid, ttl: int, beat: int) {
    && w in Sids(r.queue)
    && w in r.seen && Seconds(beat) <= r.seen[w]
    && w in r.sessions && beat + (ttl - 1) * 1000 <= r.sessions[w].expireAt
  }

  /** The step refreshes the waiter: a poll, or an enqueue that finds its place. */
  predicate Beats(r: Room, clock: int, op: Op, w: Sid, ttl: int) {
    match op
    case Poll(sid, _, t) => sid == w && t == ttl
    case Enqueue(sid, score, t, now, owner, check) =>
      sid == w && Scripts.Enqueue(r, clock, sid, score, t, now, owner, check).1 > 0
    case _ => false
  }

  /** Nobody abandons the session or flushes the room, reclaims look back the whole time to live,
    and a hold of the queued session does not cut its metadata short. */
  predicate Spares(clock: int, op: Op, w: Sid, ttl: int, beat: int) {
    match op
    case Poll(sid, _, t) => sid == w ==> t <= 0 || t == ttl
    case Enqueue(sid, _, t, _, _, _) => sid == w ==> t == ttl
    case Remove(sid) => sid != w
    case Flush => false
    case Reclaim(cutoff, _) => cutoff <= clock - ttl * 1000
    case Hold(sid, _, seconds) => sid == w ==> seconds > 0 && beat + (ttl - 1) * 1000 <= clock + seconds * 1000
    case _ => true
  }

  /** Until it is admitted, the waiter is never more than ttl - 1 seconds away from its last beat. */
  ghost predicate Attentive(l: Limits, r: Room, es: seq<Event>, w: Sid, ttl: int, beat: int)
    decreases es
  {
    es == [] ||
    var e := es[0];
    && e.clock - beat <= (ttl - 1) * 1000
    && Spares(e.clock, e.op, w, ttl, beat)
    && (w in Returned(l, r, e) ||
        Attentive(l, Step(l, r, e), es[1..], w, ttl, NextBeat(r, e, w, ttl, beat)))
  }

  function NextBeat(r: Room, e: Event, w: Sid, ttl: int, beat: int): int {
    if Beats(Expire(r, e.clock), e.clock, e.op, w, ttl) then e.clock else beat
  }

  /** Expiry leaves an attentive waiter alone. */
  lemma ExpireSpares(r: Room, clock: int, w: Sid, ttl: int, beat: int)
    requires Alive(r, w, ttl, beat) && clock - beat <= (ttl - 1) * 1000
    ensures Alive(Expire(r, clock), w, ttl, beat)
  {
  }

  /** A reclaim that looks back the whole time to live finds the waiter seen recently. */
  lemma NotIdle(r: Room, clock: int, cutoff: int, w: Sid, ttl: int, beat: int)
    requires Alive(r, w, ttl, beat) && clock - beat <= (ttl - 1) * 1000 && cutoff <= clock - ttl * 1000
    ensures w !in Idle(r.seen, cutoff)
  {
    hide Sids;
    assert Seconds(beat) * 1000 > beat - 1000;
  }

  lemma ReclaimSpares(r: Room, clock: int, cutoff: int, now: int, w: Sid, ttl: int, beat: int)
    requires Alive(r, w, ttl, beat) && clock - beat <= (ttl - 1) * 1000 && cutoff <= clock - ttl * 1000
    ensures Alive(Scripts.Reclaim(r, cutoff, now).0, w, ttl, beat)
  {
    NotIdle(r, clock, cutoff, w, ttl, beat);
    WithoutMembers(r.queue, Idle(r.seen, cutoff));
    hide Sids, Idle, Lapsed;
  }

  /** A tick that pops the waiter returns it. */
  lemma TickSpares(l: Limits, r: Room, clock: int, maxN: int, now: int, w: Sid, ttl: int, beat: int)
    requires Inv(l, r) && Alive(r, w, ttl, beat)
    ensures var (r', out) := Scripts.Tick(l, r, clock, maxN, now);
            w in out || Alive(r', w, ttl, beat)
  {
    var n := Popped(l, r, maxN, now);
    hide Inv, Sids, Place, Present, Popped, Scripts.Tick, Mark, Lapsed;
    InvDistinct(l, r, n);
    TickShape(l, r, clock, maxN, now);
    PresentIs(r.queue[..n], r.sessions);
    SameMembers(Present(r.queue[..n], r.sessions), Sids(r.queue[..n]) * r.sessions.Keys);
    PopSids(r.queue, n);
    var marked := Mark(r.sessions, Lapsed(r.admitted, now), Expired);
    MarkKeeps(r.sessions, Lapsed(r.admitted, now), Expired);
    MarkKeeps(marked, Sids(r.queue[..n]) * r.sessions.Keys, Admitted);
  }

  lemma EnqueueSpares(l: Limits, r: Room, clock: int, op: Op, w: Sid, ttl: int, beat: int)
    requires op.Enqueue? && Alive(r, w, ttl, beat) && beat <= clock && ttl >= 1
    requires Spares(clock, op, w, ttl, beat) && InTime(Event(clock, op))
    ensures Alive(Apply(l, r, clock, op), w, ttl, if Beats(r, clock, op, w, ttl) then clock else beat)
  {
    InsertSids(r.queue, Entry(op.sid, op.score));
    hide Sids, Insert, Place, Seconds;
    SecondsGrow(beat, clock);
  }

  lemma SecondsGrow(a: int, b: int)
    requires a <= b
    ensures Seconds(a) <= Seconds(b)
  {
  }

  lemma PollSpares(l: Limits, r: Room, clock: int, op: Op, w: Sid, ttl: int, beat: int)
    requires op.Poll? && Alive(r, w, ttl, beat) && beat <= clock && ttl >= 1
    requires Spares(clock, op, w, ttl, beat) && InTime(Event(clock, op))
    ensures Alive(Apply(l, r, clock, op), w, ttl, if Beats(r, clock, op, w, ttl) then clock else beat)
  {
    hide Sids, Place;
  }

  lemma RemoveSpares(r: Room, sid: Sid, w: Sid, ttl: int, beat: int)
    requires sid != w && Alive(r, w, ttl, beat)
    ensures Alive(Scripts.Remove(r, sid).0, w, ttl, beat)
  {
    WithoutMembers(r.queue, {sid});
    hide Sids;
  }

  lemma StepSpares(l: Limits, r: Room, clock: int, op: Op, w: Sid, ttl: int, beat: int)
    requires Inv(l, r) && Alive(r, w, ttl, beat) && beat <= clock && clock - beat <= (ttl - 1) * 1000
    requires Spares(clock, op, w, ttl, beat) && InTime(Event(clock, op))
    ensures w in Output(l, r, clock, op) ||
            Alive(Apply(l, r, clock, op), w, ttl, if Beats(r, clock, op, w, ttl) then clock else beat)
  {
    hide Inv, Sids, Scripts.Tick, Scripts.Enqueue, Scripts.Reclaim, Scripts.Remove, Scripts.Poll;
    match op
    case Tick(maxN, now) => TickSpares(l, r, clock, maxN, now, w, ttl, beat);
    case Enqueue(_, _, _, _, _, _) => EnqueueSpares(l, r, clock, op, w, ttl, beat);
    case Poll(_, _, _) => PollSpares(l, r, clock, op, w, ttl, beat);
    case Remove(sid) => RemoveSpares(r, sid, w, ttl, beat);
    case Reclaim(cutoff, now) => ReclaimSpares(r, clock, cutoff, now, w, ttl, beat);
    case _ =>
  }

  /** Over every run on one clock, an attentive waiter has been admitted or is still queued, with
    its metadata. */
  lemma {:induction false} ActiveWaiterIsKept(l: Limits, r: Room, es: seq<Event>, w: Sid, ttl: int, beat: int, from: int)
    requires Inv(l, r) && Alive(r, w, ttl, beat) && beat <= from && OneClock(from, es)
    requires Attentive(l, r, es, w, ttl, beat)
    ensures w in Admissions(l, r, es) || (w in Sids(Run(l, r, es).queue) && w in Run(l, r, es).sessions)
    decreases es
  {
    if es != [] {
      var e, rest := es[0], es[1..];
      assert e in es && forall f :: f in rest ==> f in es;
      hide Inv, Alive, Spares, Beats, Apply, Output;
      ExpireSpares(r, e.clock, w, ttl, beat);
      ExpireInv(l, r, e.clock);
      StepInv(l, r, e);
      StepSpares(l, Expire(r, e.clock), e.clock, e.op, w, ttl, beat);
      if w !in Returned(l, r, e) {
        ActiveWaiterIsKept(l, Step(l, r, e), rest, w, ttl, NextBeat(r, e, w, ttl, beat), e.clock);
      }
    }
  }

  /** And it is admitted: an attentive waiter, with fresh scores behind it, has been returned by a tick
    once as many ticks were helpful as its 1-indexed position says. */
  lemma {:induction false} ActiveWaiterIsAdmitted(l: Limits, r: Room, es: seq<Event>, w: Sid, ttl: int, beat: int, from: int)
    requires Inv(l, r) && Alive(r, w, ttl, beat) && beat <= from && OneClock(from, es)
    requires Attentive(l, r, es, w, ttl, beat) && FreshScores(l, r, es)
    requires Help(l, r, es) >= Place(r.queue, w) + 1
    ensures w in Admissions(l, r, es)
    decreases es
  {
    if es != [] {
      var e, rest := es[0], es[1..];
      var x, r' := Expire(r, e.clock), Step(l, r, e);
      assert e in es && forall f :: f in rest ==> f in es;
      hide Inv, Alive, Spares, Beats, Apply, Output, Sids, Place, Helpful, FreshScore;
      ExpireSpares(r, e.clock, w, ttl, beat);
      ExpireInv(l, r, e.clock);
      StepInv(l, r, e);
      StepSpares(l, x, e.clock, e.op, w, ttl, beat);
      if w !in Returned(l, r, e) {
        HelpMoves(l, r, e, w, ttl, beat, NextBeat(r, e, w, ttl, beat));
        ActiveWaiterIsAdmitted(l, r', rest, w, ttl, NextBeat(r, e, w, ttl, beat), e.clock);
      }
    }
  }

  /** A step never moves a waiter back, and a helpful tick moves it forward. */
  lemma HelpMoves(l: Limits, r: Room, e: Event, w: Sid, ttl: int, beat: int, beat': int)
    requires Inv(l, r) && FreshScore(r, e.op) && Alive(r, w, ttl, beat) && Alive(Step(l, r, e), w, ttl, beat')
    ensures Place(Step(l, r, e).queue, w) + (if Helpful(l, Expire(r, e.clock), e.op) then 1 else 0) <= Place(r.queue, w)
  {
    var x := Expire(r, e.clock);
    AliveWaits(r, w, ttl, beat);
    AliveWaits(Step(l, r, e), w, ttl, beat');
    ExpireInv(l, r, e.clock);
    hide Inv, Alive, Apply, Sids, Place, Helpful, Popped;
    ExpireFresh(r, e);
    StepPlace(l, x, e.clock, e.op, w);
    if Helpful(l, x, e.op) {
      SomebodyQueued(x.queue, w);
      HelpfulPops(l, x, e.op);
      HelpfulTicks(l, x, e.op);
    }
  }

  /** Joining, or coming back, makes a waiter alive. */
  lemma JoiningIsABeat(r: Room, clock: int, w: Sid, score: real, ttl: int, owner: Owner, check: bool)
    requires ttl >= 1
    requires Scripts.Enqueue(r, clock, w, score, ttl, Seconds(clock), owner, check).1 > 0
    ensures Alive(Scripts.Enqueue(r, clock, w, score, ttl, Seconds(clock), owner, check).0, w, ttl, clock)
  {
    InsertSids(r.queue, Entry(w, score));
    hide Sids, Insert, Place;
  }

  /** The condition on holds is exact. A ticket redeemed while its session is queued again resets
    the time to live of the waiter's hash, slot or no slot. A tick that takes the waiter out of the
    queue, at a moment until which it may be silent, then returns it if and only if the hold lasts
    to that moment; otherwise it is dropped. */
  lemma HoldMustBeLong(l: Limits, r: Room, w: Sid, ttl: int, beat: int, clock: int, seconds: int, at: int, maxN: int)
    requires Inv(l, r) && Alive(r, w, ttl, beat) && beat <= clock <= at <= beat + (ttl - 1) * 1000
    requires var held := Step(l, r, Event(clock, Op.Hold(w, clock, seconds)));
             w !in Sids(Step(l, held, Event(at, Op.Tick(maxN, at))).queue)
    ensures var held := Step(l, r, Event(clock, Op.Hold(w, clock, seconds)));
            w in Returned(l, held, Event(at, Op.Tick(maxN, at))) <==> seconds > 0 && at <= clock + seconds * 1000
  {
    var hold := Event(clock, Op.Hold(w, clock, seconds));
    hide Inv, Scripts.Tick, Scripts.Hold, Expire, Sids, Place, Alive;
    AliveWaits(r, w, ttl, beat);
    StepInv(l, r, hold);
    ExpireInv(l, Step(l, r, hold), at);
    HoldThenWait(l, r, w, ttl, beat, clock, seconds, at);
    TakenOut(l, Expire(Step(l, r, hold), at), at, maxN, at, w);
  }

  lemma AliveWaits(r: Room, w: Sid, ttl: int, beat: int)
    requires Alive(r, w, ttl, beat)
    ensures w in Sids(r.queue)
  {
  }

  lemma HoldThenWait(l: Limits, r: Room, w: Sid, ttl: int, beat: int, clock: int, seconds: int, at: int)
    requires Alive(r, w, ttl, beat) && beat <= clock <= at <= beat + (ttl - 1) * 1000
    ensures var x := Expire(Step(l, r, Event(clock, Op.Hold(w, clock, seconds))), at);
            x.queue == r.queue && (w in x.sessions <==> seconds > 0 && at <= clock + seconds * 1000)
  {
    hide Sids;
  }

  /** A session that a tick takes out of the queue is returned exactly if it has metadata. */
  lemma TakenOut(l: Limits, r: Room, clock: int, maxN: int, now: int, w: Sid)
    requires Inv(l, r) && w in Sids(r.queue) && w !in Sids(Scripts.Tick(l, r, clock, maxN, now).0.queue)
    ensures w in Scripts.Tick(l, r, clock, maxN, now).1 <==> w in r.sessions
  {
    var n := Popped(l, r, maxN, now);
    hide Inv, Sids, Place, Present, Popped, Scripts.Tick;
    InvDistinct(l, r, n);
    TickShape(l, r, clock, maxN, now);
    PopSids(r.queue, n);
    PresentIs(r.queue[..n], r.sessions);
    SameMembers(Present(r.queue[..n], r.sessions), Sids(r.queue[..n]) * r.sessions.Keys);
  }
}
