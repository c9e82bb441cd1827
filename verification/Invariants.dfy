/** What holds of a room in every reachable state, whatever the interleaving, the clocks,
  the expiries, the abandons and the flushes. */
module Invariants {
  import opened Types
  import opened ZSet
  import opened Scripts
  import opened Runs

  ghost predicate Inv(l: Limits, r: Room) {
    && Valid(r.queue)
    && r.seen.Keys == Sids(r.queue)
    && AdmittedHoldSlots(r)
    && (l.capacity > 0 ==> |r.admitted| <= l.capacity)
    && BucketInRange(l, r)
  }

  /** A hash that says "admitted" belongs to a session in the admitted set. */
  ghost predicate AdmittedHoldSlots(r: Room) {
    forall s :: s in r.sessions && r.sessions[s].status == Admitted ==> s in r.admitted
  }

  ghost predicate BucketInRange(l: Limits, r: Room) {
    l.rate > 0.0 && r.bucket.Some? ==> 0.0 <= r.bucket.value.tokens <= BucketSize(l)
  }

  lemma EmptyInv(l: Limits)
    ensures Inv(l, EMPTY_ROOM)
  {
  }

  lemma ExpireInv(l: Limits, r: Room, clock: int)
    requires Inv(l, r)
    ensures Inv(l, Expire(r, clock))
  {
  }

  lemma PurgeInv(l: Limits, r: Room, now: int)
    requires Inv(l, r)
    ensures Inv(l, Purge(r, now))
  {
    hide Sids;
    var gone := Lapsed(r.admitted, now);
    SubsetSize((r.admitted - gone).Keys, r.admitted.Keys);
  }

  lemma {:induction false} SubsetSize<T>(a: set<T>, b: set<T>)
    requires a <= b
    ensures |a| <= |b|
  {
    if a != {} {
      var x :| x in a;
      SubsetSize(a - {x}, b - {x});
    }
  }

  /** A pop returns exactly the popped sessions that have metadata, each once. */
  lemma {:induction false} PresentIs(popped: seq<Entry>, m: map<Sid, Meta>)
    requires Distinct(popped)
    ensures |Present(popped, m)| <= |popped|
    ensures multiset(Present(popped, m)) == multiset(Sids(popped) * m.Keys)
  {
    if popped == [] {
      assert Sids(popped) * m.Keys == {};
    } else {
      var sid, rest := popped[0].sid, popped[1..];
      PresentIs(rest, m);
      SidsAre(rest);
      assert sid !in Sids(rest);
      var more := Sids(rest) * m.Keys;
      if sid in m {
        assert Sids(popped) * m.Keys == {sid} + more;
        assert multiset({sid} + more) == multiset{sid} + multiset(more);
        assert Present(popped, m) == [sid] + Present(rest, m);
      } else {
        assert Sids(popped) * m.Keys == more;
      }
    }
  }

  /** What a serving tick removes and returns, from a purged room. */
  lemma AdmitInv(l: Limits, r: Room, n: nat, now: int)
    requires Valid(r.queue) && r.seen.Keys == Sids(r.queue) && AdmittedHoldSlots(r)
    requires n <= |r.queue|
    ensures var (r', out) := Admit(l, r, n, now);
            && Valid(r'.queue)
            && r'.seen.Keys == Sids(r'.queue)
            && AdmittedHoldSlots(r')
            && |r'.admitted| <= |r.admitted| + n
            && |out| <= n
  {
    hide Sids, Place, Valid, Distinct, Sorted, Present;
    var q, popped := r.queue, r.queue[..n];
    PopValid(q, n);
    PopIsValid(q, n);
    PopSids(q, n);
    PresentIs(popped, r.sessions);
    AdmitSize(l, r, n, now);
  }

  lemma AdmitSize(l: Limits, r: Room, n: nat, now: int)
    requires n <= |r.queue| && Distinct(r.queue)
    ensures |Admit(l, r, n, now).0.admitted| <= |r.admitted| + n
  {
    var who := Sids(r.queue[..n]) * r.sessions.Keys;
    assert |who| <= n by {
      PopSids(r.queue, n);
      SubsetSize(who, Sids(r.queue[..n]));
    }
    AddedSlots(r.admitted, who, now + l.grace);
  }

  lemma AddedSlots(m: map<Sid, int>, who: set<Sid>, deadline: int)
    ensures |m + map s | s in who :: deadline| <= |m| + |who|
  {
    var sum := m + map s | s in who :: deadline;
    assert sum.Keys == m.Keys + who;
    UnionSize(m.Keys, who);
  }

  lemma PopIsValid(q: seq<Entry>, n: nat)
    requires Valid(q) && n <= |q|
    ensures Distinct(q) && Valid(q[..n]) && Distinct(q[..n])
  {
  }

  lemma {:induction false} UnionSize<T>(a: set<T>, b: set<T>)
    ensures |a + b| <= |a| + |b|
  {
    assert a + b == a + (b - a);
    SubsetSize(b - a, b);
  }

  lemma TickInv(l: Limits, r: Room, clock: int, maxN: int, now: int)
    requires Inv(l, r)
    ensures Inv(l, Scripts.Tick(l, r, clock, maxN, now).0)
  {
    PurgeInv(l, r, now);
    var p := Purge(r, now);
    if Serves(p, maxN) {
      var n := Max(0, Slots(l, p, maxN, now));
      hide Purge, Admit, Sids, Valid, Place;
      AdmitInv(l, p, n, now);
      if l.rate > 0.0 {
        AvailableInRange(l, p, now);
      }
    }
  }

  lemma AvailableInRange(l: Limits, r: Room, now: int)
    requires l.rate > 0.0 && BucketInRange(l, r)
    ensures 0.0 <= Available(l, r.bucket, now) <= BucketSize(l)
  {
  }

  lemma WithoutInv(l: Limits, r: Room, gone: set<Sid>)
    requires Inv(l, r)
    ensures Inv(l, r.(queue := Without(r.queue, gone), seen := r.seen - gone, sessions := r.sessions - gone))
  {
    WithoutValid(r.queue, gone);
    WithoutMembers(r.queue, gone);
    hide Sids;
  }

  lemma EnqueueInv(l: Limits, r: Room, clock: int, sid: Sid, score: real, ttl: int, now: int, owner: Owner, check: bool)
    requires Inv(l, r)
    ensures Inv(l, Scripts.Enqueue(r, clock, sid, score, ttl, now, owner, check).0)
  {
    hide Inv, Sids, Place, Touch, AddNX;
    if sid in Sids(r.queue) {
      SeenInv(l, r, sid, now);
      TouchInv(l, r.(seen := r.seen[sid := now]), sid, clock, ttl);
    }
    var joined := r.(queue := AddNX(r.queue, Entry(sid, score)), seen := r.seen[sid := now]);
    JoinInv(l, r, sid, score, now);
    if !(sid in r.sessions && sid in r.admitted) {
      HashInv(l, joined, sid, Meta(Queued, owner, clock));
      TouchInv(l, joined.(sessions := joined.sessions[sid := Meta(Queued, owner, clock)]), sid, clock, ttl);
    }
  }

  lemma SeenInv(l: Limits, r: Room, sid: Sid, now: int)
    requires Inv(l, r) && sid in Sids(r.queue)
    ensures Inv(l, r.(seen := r.seen[sid := now]))
  {
    hide Sids, Valid;
  }

  lemma HashInv(l: Limits, r: Room, sid: Sid, meta: Meta)
    requires Inv(l, r) && meta.status == Queued
    ensures Inv(l, r.(sessions := r.sessions[sid := meta]))
  {
    hide Sids, Valid;
  }

  lemma TouchInv(l: Limits, r: Room, sid: Sid, clock: int, ttl: int)
    requires Inv(l, r)
    ensures Inv(l, r.(sessions := Touch(r.sessions, sid, clock, ttl)))
  {
    hide Sids, Valid, Touch;
    TouchKeeps(r.sessions, sid, clock, ttl);
  }

  lemma SameHashes(r: Room, r': Room)
    requires AdmittedHoldSlots(r) && r'.sessions == r.sessions && r'.admitted == r.admitted
    ensures AdmittedHoldSlots(r')
  {
  }

  lemma JoinInv(l: Limits, r: Room, sid: Sid, score: real, now: int)
    requires Inv(l, r)
    ensures Inv(l, r.(queue := AddNX(r.queue, Entry(sid, score)), seen := r.seen[sid := now]))
  {
    hide Sids, Place, Insert, Valid, AdmittedHoldSlots;
    SameHashes(r, r.(queue := AddNX(r.queue, Entry(sid, score)), seen := r.seen[sid := now]));
    if sid !in Sids(r.queue) {
      InsertValid(r.queue, Entry(sid, score));
      InsertSids(r.queue, Entry(sid, score));
    }
  }

  /** A new time to live changes no status. */
  lemma TouchKeeps(m: map<Sid, Meta>, sid: Sid, clock: int, ttl: int)
    ensures var m' := Touch(m, sid, clock, ttl);
            forall s :: s in m' ==> s in m && m'[s].status == m[s].status
  {
  }

  /** A new status changes no time to live. */
  lemma MarkKeeps(m: map<Sid, Meta>, who: set<Sid>, status: Status)
    ensures var m' := Mark(m, who, status);
            forall s :: s in m ==> s in m' && m'[s].expireAt == m[s].expireAt
  {
  }

  lemma InsertValid(q: seq<Entry>, e: Entry)
    requires Valid(q) && e.sid !in Sids(q)
    ensures Valid(Insert(q, e))
  {
    InsertSorted(q, e);
    InsertDistinct(q, e);
  }

  lemma PollInv(l: Limits, r: Room, clock: int, sid: Sid, now: int, ttl: int)
    requires Inv(l, r)
    ensures Inv(l, Scripts.Poll(r, clock, sid, now, ttl).0)
  {
    hide Sids, Valid;
  }

  lemma ReleaseInv(l: Limits, r: Room, sid: Sid)
    requires Inv(l, r)
    ensures Inv(l, Scripts.Release(r, sid).0)
  {
    hide Sids, Valid;
    SubsetSize((r.admitted - {sid}).Keys, r.admitted.Keys);
  }

  lemma HoldInv(l: Limits, r: Room, clock: int, sid: Sid, now: int, seconds: int)
    requires Inv(l, r)
    ensures Inv(l, Scripts.Hold(r, clock, sid, now, seconds).0)
  {
    hide Sids, Valid;
    if sid in r.admitted {
      assert r.admitted[sid := now + seconds * 1000].Keys == r.admitted.Keys;
    }
  }

  lemma ApplyInv(l: Limits, r: Room, clock: int, op: Op)
    requires Inv(l, r)
    ensures Inv(l, Apply(l, r, clock, op))
  {
    hide Inv, Scripts.Remove, Scripts.Reclaim, Scripts.Enqueue, Scripts.Poll, Scripts.Tick, Scripts.Hold, Scripts.Release, Scripts.Claim;
    match op
    case Enqueue(sid, score, ttl, now, owner, check) => EnqueueInv(l, r, clock, sid, score, ttl, now, owner, check);
    case Poll(sid, now, ttl) => PollInv(l, r, clock, sid, now, ttl);
    case Tick(maxN, now) => TickInv(l, r, clock, maxN, now);
    case Hold(sid, now, seconds) => HoldInv(l, r, clock, sid, now, seconds);
    case Remove(sid) => RemoveInv(l, r, sid);
    case Release(sid) => ReleaseInv(l, r, sid);
    case Reclaim(cutoff, now) => ReclaimInv(l, r, cutoff, now);
    case Claim(nonce, ex) => ClaimInv(l, r, clock, nonce, ex);
    case KillSwitch(engaged) => KillInv(l, r, engaged);
    case Flush => EmptyInv(l);
  }

  /** Every step keeps the invariant. */
  lemma StepInv(l: Limits, r: Room, e: Event)
    requires Inv(l, r)
    ensures Inv(l, Step(l, r, e))
  {
    hide Inv, Apply;
    ExpireInv(l, r, e.clock);
    ApplyInv(l, Expire(r, e.clock), e.clock, e.op);
  }

  lemma RemoveInv(l: Limits, r: Room, sid: Sid)
    requires Inv(l, r)
    ensures Inv(l, Scripts.Remove(r, sid).0)
  {
    hide Inv;
    WithoutInv(l, r, {sid});
  }

  lemma ReclaimInv(l: Limits, r: Room, cutoff: int, now: int)
    requires Inv(l, r)
    ensures Inv(l, Scripts.Reclaim(r, cutoff, now).0)
  {
    hide Inv, Purge;
    WithoutInv(l, r, Idle(r.seen, cutoff));
    PurgeInv(l, DropIdle(r, cutoff), now);
  }

  lemma ClaimInv(l: Limits, r: Room, clock: int, nonce: Nonce, ex: int)
    requires Inv(l, r)
    ensures Inv(l, Scripts.Claim(r, clock, nonce, ex).0)
  {
  }

  lemma KillInv(l: Limits, r: Room, engaged: bool)
    requires Inv(l, r)
    ensures Inv(l, r.(closed := engaged))
  {
  }

  lemma {:induction false} RunInv(l: Limits, r: Room, es: seq<Event>)
    requires Inv(l, r)
    ensures Inv(l, Run(l, r, es))
    decreases es
  {
    if es != [] {
      StepInv(l, r, es[0]);
      RunInv(l, Step(l, r, es[0]), es[1..]);
    }
  }

  /** Of two sessions the one with the smaller score, of equal scores the one with the smaller id. */
  predicate Ahead(a: Entry, b: Entry) {
    a.sid != b.sid && (if a.score == b.score then a.sid < b.sid else a.score < b.score)
  }

  /** Every reachable room: a sorted queue of distinct sessions, each with a last-seen time and
    nobody else; at most `capacity` slots; no hash that says "admitted" without a slot; and a
    bucket between empty and full. */
  lemma EveryReachableRoom(l: Limits, es: seq<Event>)
    ensures var r := Run(l, EMPTY_ROOM, es);
            && (forall i, j :: 0 <= i < j < |r.queue| ==> Ahead(r.queue[i], r.queue[j]))
            && r.seen.Keys == Sids(r.queue)
            && (l.capacity > 0 ==> |r.admitted| <= l.capacity)
            && (forall s :: s in r.sessions && r.sessions[s].status == Admitted ==> s in r.admitted)
            && (l.rate > 0.0 && r.bucket.Some? ==> 0.0 <= r.bucket.value.tokens <= BucketSize(l))
  {
    EmptyInv(l);
    RunInv(l, EMPTY_ROOM, es);
    hide Run, Sids;
  }
}
