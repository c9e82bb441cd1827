/** What a caller learns from joining, abandoning and reclaiming, and what these leave alone. */
module Sessions {
  import opened Types
  import opened ZSet
  import opened Scripts
  import opened Invariants

  /** Each reply of an enqueue says what the room was like, and only a positive one, the caller's
    1-indexed place, changes anything: nobody takes over a session of another client, nobody who
    queues loses the place, and slots are not touched. */
  lemma EnqueueReplies(l: Limits, r: Room, clock: int, sid: Sid, score: real, ttl: int, now: int, owner: Owner, check: bool)
    requires ttl > 0 && Inv(l, r)
    ensures var (r', reply) := Scripts.Enqueue(r, clock, sid, score, ttl, now, owner, check);
            && (reply == -1 <==> r.closed)
            && (reply == -2 <==> !r.closed && sid in r.sessions && check && r.sessions[sid].owner != owner)
            && (reply == 0 <==> !r.closed && sid in r.sessions && !(check && r.sessions[sid].owner != owner) && sid in r.admitted)
            && (reply <= 0 ==> r' == r)
            && (reply > 0 ==>
                  && reply <= |r'.queue| && r'.queue[reply - 1].sid == sid
                  && sid in r'.sessions && r'.sessions[sid].expireAt == clock + ttl * 1000
                  && (if sid in r.sessions && sid in Sids(r.queue) then
                        r'.sessions[sid] == r.sessions[sid].(expireAt := clock + ttl * 1000)
                      else r'.sessions[sid] == Meta(Queued, owner, clock + ttl * 1000))
                  && r'.seen == r.seen[sid := now])
            && r'.admitted == r.admitted
            && (forall e :: e in r.queue ==> e in r'.queue)
            && (forall e :: e in r'.queue && e !in r.queue ==> e == Entry(sid, score))
            && Sorted(r'.queue) && |r'.queue| == |r.queue| + (if reply > 0 && sid !in Sids(r.queue) then 1 else 0)
            && r'.bucket == r.bucket && r'.closed == r.closed && r'.nonces == r.nonces
            && (forall s :: s != sid ==> (s in r'.sessions <==> s in r.sessions))
            && (forall s :: s != sid && s in r.sessions ==> r'.sessions[s] == r.sessions[s])
  {
    InsertMembers(r.queue, Entry(sid, score));
    InsertSids(r.queue, Entry(sid, score));
    assert Sorted(r.queue);
    if sid !in Sids(r.queue) {
      InsertSorted(r.queue, Entry(sid, score));
    }
    hide Inv, Sids, Insert, Sorted;
  }

  lemma InsertMembers(q: seq<Entry>, e: Entry)
    ensures forall x :: x in Insert(q, e) <==> x in q || x == e
    ensures |Insert(q, e)| == |q| + 1
  {
    var k := InsertPoint(q, e);
    assert q == q[..k] + q[k..];
  }

  /** Enqueueing again changes no place: the second reply is the first one, or "admitted" for a
    session that had lost its hash while it held a slot. */
  lemma EnqueueIsIdempotent(r: Room, clock: int, sid: Sid, score: real, ttl: int, now: int, owner: Owner, check: bool,
                            clock2: int, score2: real, now2: int)
    requires ttl > 0 && Scripts.Enqueue(r, clock, sid, score, ttl, now, owner, check).1 > 0
    ensures var (r1, first) := Scripts.Enqueue(r, clock, sid, score, ttl, now, owner, check);
            var (r2, second) := Scripts.Enqueue(r1, clock2, sid, score2, ttl, now2, owner, check);
            r2.queue == r1.queue && second == if sid in r.admitted then 0 else first
  {
    InsertSids(r.queue, Entry(sid, score));
    hide Sids, Insert, Place;
  }

  /** A poll moves nobody, reports the place of the session, and refreshes it if it queues. */
  lemma PollReports(r: Room, clock: int, sid: Sid, now: int, ttl: int)
    ensures var (r', reply) := Scripts.Poll(r, clock, sid, now, ttl);
            && r'.queue == r.queue && r'.admitted == r.admitted
            && (ttl <= 0 ==> r' == r)
            && (reply.position > 0 <==> sid in Sids(r.queue))
            && (reply.position > 0 ==> reply.position <= reply.size && r.queue[reply.position - 1].sid == sid)
            && (reply.position >= 0 && reply.size == |r.queue| && reply.closed == r.closed)
            && (reply.admitted <==> sid in r.admitted && sid !in Sids(r.queue))
            && (sid !in Sids(r.queue) ==> r' == r)
            && (ttl > 0 && sid in Sids(r.queue) ==>
                  && r'.seen == r.seen[sid := now] && r'.sessions.Keys == r.sessions.Keys
                  && (sid in r.sessions ==> r'.sessions[sid] == r.sessions[sid].(expireAt := clock + ttl * 1000)))
            && (forall s :: s != sid && s in r.sessions ==> s in r'.sessions && r'.sessions[s] == r.sessions[s])
            && r'.bucket == r.bucket && r'.closed == r.closed && r'.nonces == r.nonces
  {
    hide Sids;
  }

  /** Abandoning takes the session out of the queue and deletes its hash, but keeps its slot: the
    admitted set, and with it the free capacity, is as before. */
  lemma AbandonKeepsSlot(l: Limits, r: Room, sid: Sid)
    requires Inv(l, r)
    ensures var (r', removed) := Scripts.Remove(r, sid);
            && Sids(r'.queue) == Sids(r.queue) - {sid} && (removed <==> sid in Sids(r.queue))
            && (forall e :: e in r'.queue <==> e in r.queue && e.sid != sid)
            && sid !in r'.sessions && sid !in r'.seen
            && (forall s :: s != sid && s in r.sessions ==> s in r'.sessions && r'.sessions[s] == r.sessions[s])
            && (forall s :: s != sid && s in r.seen ==> s in r'.seen && r'.seen[s] == r.seen[s])
            && r'.admitted == r.admitted && r'.bucket == r.bucket && r'.closed == r.closed && r'.nonces == r.nonces
  {
    WithoutMembers(r.queue, {sid});
    hide Sids;
  }

  /** The count a reclaim returns is the number of waiters and of slots that are gone. */
  lemma ReclaimCounts(l: Limits, r: Room, cutoff: int, now: int)
    requires Inv(l, r)
    ensures var (r', count) := Scripts.Reclaim(r, cutoff, now);
            count == |r.queue| - |r'.queue| + |r.admitted| - |r'.admitted|
  {
    var idle, lapsed := Idle(r.seen, cutoff), Lapsed(r.admitted, now);
    var r' := Scripts.Reclaim(r, cutoff, now).0;
    WithoutValid(r.queue, idle);
    WithoutMembers(r.queue, idle);
    DistinctSize(r.queue);
    DistinctSize(r'.queue);
    hide Inv, Sids, Without, Idle, Lapsed, Mark;
    Parts(Sids(r.queue), idle);
    assert r'.admitted.Keys == r.admitted.Keys - lapsed;
    Parts(r.admitted.Keys, lapsed);
    LapsedHeld(r.admitted, now);
    assert lapsed * r.admitted.Keys == lapsed;
  }

  /** Who a reclaim drops and whom it spares: waiters last seen at or before the cutoff go, with their
    hashes; slots whose deadline has come go, and the hashes of their sessions say so. */
  lemma ReclaimDrops(l: Limits, r: Room, cutoff: int, now: int, s: Sid)
    requires Inv(l, r)
    ensures var r' := Scripts.Reclaim(r, cutoff, now).0;
            var idle := s in Sids(r.queue) && r.seen[s] * 1000 <= cutoff;
            var lapsed := s in r.admitted && r.admitted[s] <= now;
            && (s in Sids(r'.queue) <==> s in Sids(r.queue) && !idle)
            && (s in r'.seen <==> s in r.seen && !idle) && (s in r'.seen ==> r'.seen[s] == r.seen[s])
            && (s in r'.admitted <==> s in r.admitted && !lapsed) && (s in r'.admitted ==> r'.admitted[s] == r.admitted[s])
            && (s in r'.sessions <==> s in r.sessions && !idle)
            && (s in r'.sessions ==> r'.sessions[s] == if lapsed then r.sessions[s].(status := Expired) else r.sessions[s])
  {
    assert r.seen.Keys == Sids(r.queue);
    WithoutMembers(r.queue, Idle(r.seen, cutoff));
    hide Inv, Sids, Without;
  }

  lemma LapsedHeld(m: map<Sid, int>, now: int)
    ensures Lapsed(m, now) <= m.Keys
  {
  }

  lemma Parts<T>(a: set<T>, b: set<T>)
    ensures |a| == |a - b| + |b * a|
  {
    assert a == (a - b) + (b * a);
  }

  /** A release frees exactly the slot it is for, once. */
  lemma ReleaseFreesOnce(r: Room, sid: Sid)
    ensures var (r', freed) := Scripts.Release(r, sid);
            && (freed <==> sid in r.admitted)
            && r'.admitted.Keys == r.admitted.Keys - {sid}
            && r'.queue == r.queue && r'.sessions.Keys == r.sessions.Keys
            && (forall s :: s in r.sessions && s != sid ==> r'.sessions[s] == r.sessions[s])
            && (freed && sid in r.sessions ==> r'.sessions[sid] == r.sessions[sid].(status := Released))
            && (forall s :: s in r'.admitted ==> r'.admitted[s] == r.admitted[s])
            && r'.seen == r.seen && r'.bucket == r.bucket && r'.closed == r.closed && r'.nonces == r.nonces
            && (!freed ==> r' == r)
            && Scripts.Release(r', sid) == (r', false)
  {
  }
}
