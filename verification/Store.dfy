/** The scripts and pipelines as they run: in place, step by step, with early returns and loops.
  Each one is shown to do what its function in `Scripts` says. */
module Store {
  import opened Types
  import opened ZSet
  import opened Scripts

  lemma {:induction false} WithoutMore(q: seq<Entry>, gone: set<Sid>, sid: Sid)
    ensures Without(Without(q, gone), {sid}) == Without(q, gone + {sid})
  {
    if q != [] {
      WithoutMore(q[1..], gone, sid);
    }
  }

  lemma {:induction false} WithoutNone(q: seq<Entry>)
    ensures Without(q, {}) == q
  {
    if q != [] {
      WithoutNone(q[1..]);
    }
  }

  lemma {:induction false} PresentSnoc(popped: seq<Entry>, e: Entry, m: map<Sid, Meta>)
    ensures Present(popped + [e], m) == Present(popped, m) + if e.sid in m then [e.sid] else []
  {
    if popped != [] {
      PresentSnoc(popped[1..], e, m);
      assert (popped + [e])[1..] == popped[1..] + [e];
    }
  }

  lemma MarkMore(m: map<Sid, Meta>, who: set<Sid>, sid: Sid, status: Status)
    ensures Mark(m, who + {sid}, status)
         == if sid in m then Mark(m, who, status)[sid := m[sid].(status := status)] else Mark(m, who, status)
  {
  }

  lemma SidsSnoc(q: seq<Entry>, i: nat)
    requires i < |q|
    ensures Sids(q[..i + 1]) == Sids(q[..i]) + {q[i].sid}
  {
    assert q[..i + 1] == q[..i] + [q[i]];
    SidsConcat(q[..i], [q[i]]);
  }

  /** The pop loop after `i` members: hashes marked, slots collected, sids listed. */
  ghost predicate Popping(before: map<Sid, Meta>, members: seq<Entry>, i: nat, deadline: int,
                          sessions: map<Sid, Meta>, slots: map<Sid, int>, out: seq<Sid>)
  {
    && i <= |members|
    && var who := Sids(members[..i]) * before.Keys;
    && sessions == Mark(before, who, Admitted)
    && slots == (map s | s in who :: deadline)
    && out == Present(members[..i], before)
  }

  lemma PoppingStarts(before: map<Sid, Meta>, members: seq<Entry>, deadline: int)
    ensures Popping(before, members, 0, deadline, before, map[], [])
  {
    assert Sids(members[..0]) == {};
  }

  lemma PoppingStep(before: map<Sid, Meta>, members: seq<Entry>, i: nat, deadline: int,
                    sessions: map<Sid, Meta>, slots: map<Sid, int>, out: seq<Sid>)
    requires i < |members| && Popping(before, members, i, deadline, sessions, slots, out)
    ensures var sid := members[i].sid;
            if sid in sessions then
              Popping(before, members, i + 1, deadline, sessions[sid := sessions[sid].(status := Admitted)],
                      slots[sid := deadline], out + [sid])
            else Popping(before, members, i + 1, deadline, sessions, slots, out)
  {
    var sid := members[i].sid;
    var who := Sids(members[..i]) * before.Keys;
    assert members[..i + 1] == members[..i] + [members[i]];
    PresentSnoc(members[..i], members[i], before);
    SidsSnoc(members, i);
    var next := Sids(members[..i + 1]) * before.Keys;
    if sid in sessions {
      assert next == who + {sid};
      MarkMore(before, who, sid, Admitted);
    } else {
      assert next == who;
    }
  }

  /** The loop dropping idle waiters after the sessions in `done`. */
  ghost predicate Dropping(queue0: seq<Entry>, sessions0: map<Sid, Meta>, done: set<Sid>,
                           queue: seq<Entry>, sessions: map<Sid, Meta>, q: nat)
  {
    && queue == Without(queue0, done)
    && sessions == sessions0 - done
    && q == |done * Sids(queue0)|
  }

  lemma DroppingStarts(queue0: seq<Entry>, sessions0: map<Sid, Meta>)
    ensures Dropping(queue0, sessions0, {}, queue0, sessions0, 0)
  {
    WithoutNone(queue0);
    assert {} * Sids(queue0) == {};
    assert sessions0 - {} == sessions0;
  }

  lemma DroppingStep(queue0: seq<Entry>, sessions0: map<Sid, Meta>, done: set<Sid>,
                     queue: seq<Entry>, sessions: map<Sid, Meta>, q: nat, sid: Sid)
    requires sid !in done && Dropping(queue0, sessions0, done, queue, sessions, q)
    ensures Dropping(queue0, sessions0, done + {sid}, Without(queue, {sid}), sessions - {sid},
                     if sid in Sids(queue) then q + 1 else q)
  {
    hide Without, Sids;
    WithoutMore(queue0, done, sid);
    WithoutMembers(queue0, done);
    var all := Sids(queue0);
    if sid in all {
      assert (done + {sid}) * all == done * all + {sid};
    } else {
      assert (done + {sid}) * all == done * all;
    }
    assert sessions0 - (done + {sid}) == sessions0 - done - {sid};
  }

  class RoomStore {
    var queue: seq<Entry>
    var seen: map<Sid, int>
    var admitted: map<Sid, int>
    var sessions: map<Sid, Meta>
    var bucket: Option<Bucket>
    var closed: bool
    var nonces: map<Nonce, int>

    ghost function State(): Room
      reads this
    {
      Room(queue, seen, admitted, sessions, bucket, closed, nonces)
    }

    constructor ()
      ensures State() == EMPTY_ROOM
    {
      queue, seen, admitted, sessions := [], map[], map[], map[];
      bucket, closed, nonces := None, false, map[];
    }

    /** The server drops the keys that are past their expiry before a script looks at them. */
    method Sweep(clock: int)
      modifies this
      ensures State() == Expire(old(State()), clock)
    {
      sessions := LiveSessions(sessions, clock);
      bucket := LiveBucket(bucket, clock);
      nonces := LiveNonces(nonces, clock);
    }

    /** Marks the hashes of some sessions, one at a time. */
    method MarkEach(who: set<Sid>, status: Status)
      modifies this`sessions
      ensures sessions == Mark(old(sessions), who, status)
    {
      var todo := who;
      assert sessions == Mark(sessions, who - todo, status);
      while todo != {}
        invariant todo <= who
        invariant sessions == Mark(old(sessions), who - todo, status)
        decreases todo
      {
        var sid :| sid in todo;
        MarkMore(old(sessions), who - todo, sid, status);
        assert who - (todo - {sid}) == (who - todo) + {sid};
        if sid in sessions {
          sessions := sessions[sid := sessions[sid].(status := status)];
        }
        todo := todo - {sid};
      }
      assert who - todo == who;
    }

    method FreeLapsed(now: int)
      modifies this`admitted, this`sessions
      ensures State() == Purge(old(State()), now)
    {
      var expired := Lapsed(admitted, now);
      if expired != {} {
        admitted := admitted - expired;
        MarkEach(expired, Expired);
      } else {
        assert admitted - expired == admitted;
        assert Mark(sessions, expired, Expired) == sessions;
      }
    }

    method Enqueue(clock: int, sid: Sid, score: real, ttl: int, now: int, owner: Owner, check: bool) returns (reply: int)
      modifies this
      ensures (State(), reply) == Scripts.Enqueue(Expire(old(State()), clock), clock, sid, score, ttl, now, owner, check)
    {
      Sweep(clock);
      if closed {
        return -1;
      }
      if sid in sessions {
        if check {
          if sessions[sid].owner != owner {
            return -2;
          }
        }
        if sid in admitted {
          return 0;
        }
        if sid in Sids(queue) {
          seen := seen[sid := now];
          sessions := Touch(sessions, sid, clock, ttl);
          return Place(queue, sid) + 1;
        }
      }
      queue := AddNX(queue, Entry(sid, score));
      seen := seen[sid := now];
      sessions := sessions[sid := Meta(Queued, owner, clock)];
      sessions := Touch(sessions, sid, clock, ttl);
      return Place(queue, sid) + 1;
    }

    method Position(clock: int, sid: Sid, now: int, ttl: int) returns (reply: PositionReply)
      modifies this
      ensures (State(), reply) == Poll(Expire(old(State()), clock), clock, sid, now, ttl)
    {
      Sweep(clock);
      if sid !in Sids(queue) {
        return PositionReply(0, |queue|, sid in admitted, closed);
      }
      if ttl > 0 {
        seen := seen[sid := now];
        sessions := Touch(sessions, sid, clock, ttl);
      }
      return PositionReply(Place(queue, sid) + 1, |queue|, false, closed);
    }

    /** Marks the popped members that have metadata and collects their slots, one at a time. */
    method AdmitEach(members: seq<Entry>, deadline: int) returns (slots: map<Sid, int>, out: seq<Sid>)
      modifies this`sessions
      ensures Popping(old(sessions), members, |members|, deadline, sessions, slots, out)
    {
      hide Popping;
      slots, out := map[], [];
      var i := 0;
      PoppingStarts(sessions, members, deadline);
      while i < |members|
        invariant 0 <= i <= |members|
        invariant Popping(old(sessions), members, i, deadline, sessions, slots, out)
      {
        var sid := members[i].sid;
        PoppingStep(old(sessions), members, i, deadline, sessions, slots, out);
        if sid in sessions {
          sessions := sessions[sid := sessions[sid].(status := Admitted)];
          slots := slots[sid := deadline];
          out := out + [sid];
        }
        i := i + 1;
      }
    }

    /** Step 5 of the tick: pops `n` members and admits the ones with metadata. */
    method PopAndAdmit(l: Limits, n: nat, now: int) returns (out: seq<Sid>)
      requires n <= |queue|
      modifies this`queue, this`seen, this`sessions, this`admitted
      ensures (State(), out) == Admit(l, old(State()), n, now)
    {
      hide Sids, Mark, Present;
      var members := queue[..n];
      queue := queue[n..];
      seen := seen - Sids(members);
      var slots: map<Sid, int>;
      slots, out := AdmitEach(members, now + l.grace);
      assert members[..|members|] == members;
      admitted := admitted + slots;
      ghost var spec := Admit(l, old(State()), n, now);
      assert spec.1 == out;
      assert spec.0.queue == queue;
      assert spec.0.seen == seen;
      assert spec.0.sessions == sessions;
      assert spec.0.admitted == admitted;
    }

    method AdmitBatchScript(l: Limits, clock: int, maxN: int, now: int) returns (out: seq<Sid>)
      modifies this
      ensures (State(), out) == Tick(l, Expire(old(State()), clock), clock, maxN, now)
    {
      hide Admit, Purge, Expire, BucketTtl, Sids, Available;
      Sweep(clock);
      FreeLapsed(now);
      ghost var r := State();
      if closed {
        return [];
      }
      if maxN <= 0 {
        return [];
      }
      var n := Min(maxN, |queue|);
      if n <= 0 {
        return [];
      }
      if l.capacity > 0 {
        n := Min(n, l.capacity - |admitted|);
      }
      var tokens := 0.0;
      if l.rate > 0.0 {
        tokens := ReadBucket(l, now);
        n := Min(n, tokens.Floor);
      }
      if n > 0 {
        out := PopAndAdmit(l, n, now);
      } else {
        out := [];
        NothingAdmitted(l, r, now);
      }
      if l.rate > 0.0 {
        bucket := Some(Bucket(tokens - |out| as real, now, clock + BucketTtl(l)));
      }
    }

    /** Tokens on hand, refilled from the time since the bucket was last written. */
    method ReadBucket(l: Limits, now: int) returns (tokens: real)
      ensures tokens == Available(l, bucket, now)
    {
      var size := MaxReal(MaxReal(l.burst as real, l.rate), 1.0);
      var ts := now;
      tokens := size;
      if bucket.Some? {
        tokens, ts := bucket.value.tokens, bucket.value.ts;
      }
      var elapsed := Max(0, now - ts) as real / 1000.0;
      tokens := MinReal(size, tokens + elapsed * l.rate);
      assert bucket.None? ==> elapsed * l.rate == 0.0;
    }

    /** The backend's wrapper does not call the script for an empty batch. */
    method AdmitBatch(l: Limits, clock: int, n: int, now: int) returns (out: seq<Sid>)
      modifies this
      ensures n <= 0 ==> State() == old(State()) && out == []
      ensures n > 0 ==> (State(), out) == Tick(l, Expire(old(State()), clock), clock, n, now)
    {
      if n <= 0 {
        return [];
      }
      out := AdmitBatchScript(l, clock, n, now);
    }

    method ReleaseAdmission(clock: int, sid: Sid) returns (removed: bool)
      modifies this
      ensures (State(), removed) == Release(Expire(old(State()), clock), sid)
    {
      Sweep(clock);
      removed := sid in admitted;
      admitted := admitted - {sid};
      if removed {
        MarkEach({sid}, Released);
      } else {
        assert admitted == old(admitted);
      }
    }

    /** The first loop of reclaim.lua: drops idle waiters and counts those that were queued. */
    method DropEach(idle: set<Sid>) returns (q: nat)
      modifies this`queue, this`sessions
      ensures queue == Without(old(queue), idle) && sessions == old(sessions) - idle
      ensures q == |idle * Sids(old(queue))|
    {
      var todo := idle;
      q := 0;
      DroppingStarts(queue, sessions);
      assert idle - todo == {};
      while todo != {}
        invariant todo <= idle
        invariant Dropping(old(queue), old(sessions), idle - todo, queue, sessions, q)
        decreases todo
      {
        var sid :| sid in todo;
        DroppingStep(old(queue), old(sessions), idle - todo, queue, sessions, q, sid);
        assert idle - (todo - {sid}) == (idle - todo) + {sid};
        if sid in Sids(queue) {
          q := q + 1;
        }
        queue := Without(queue, {sid});
        sessions := sessions - {sid};
        todo := todo - {sid};
      }
      assert idle - todo == idle;
    }

    method ReclaimExpired(clock: int, cutoff: int, now: int) returns (count: nat)
      modifies this
      ensures (State(), count) == Reclaim(Expire(old(State()), clock), cutoff, now)
    {
      Sweep(clock);
      var idle := Idle(seen, cutoff);
      var q := DropEach(idle);
      seen := seen - idle;
      var lapsed := Lapsed(admitted, now);
      MarkEach(lapsed, Expired);
      admitted := admitted - lapsed;
      count := q + |lapsed|;
    }

    method HoldAdmission(clock: int, sid: Sid, now: int, seconds: int) returns (changed: bool)
      modifies this
      ensures (State(), changed) == Hold(Expire(old(State()), clock), clock, sid, now, seconds)
    {
      Sweep(clock);
      changed := false;
      if sid in admitted {
        changed := admitted[sid] != now + seconds * 1000;
        admitted := admitted[sid := now + seconds * 1000];
      }
      sessions := Touch(sessions, sid, clock, seconds);
    }

    method RemoveSession(clock: int, sid: Sid) returns (removed: bool)
      modifies this
      ensures (State(), removed) == Remove(Expire(old(State()), clock), sid)
    {
      Sweep(clock);
      removed := sid in Sids(queue);
      queue := Without(queue, {sid});
      seen := seen - {sid};
      sessions := sessions - {sid};
    }

    method ClaimNonce(clock: int, nonce: Nonce, ex: int) returns (ok: bool)
      modifies this
      ensures (State(), ok) == Claim(Expire(old(State()), clock), clock, nonce, ex)
    {
      Sweep(clock);
      ok := nonce !in nonces;
      if ok {
        nonces := nonces[nonce := clock + ex * 1000];
      }
    }

    method SetKillSwitch(engaged: bool)
      modifies this`closed
      ensures State() == old(State()).(closed := engaged)
    {
      closed := engaged;
    }

    /** Flushing unlinks every key of the room, the nonces and the bucket included. */
    method FlushRoom()
      modifies this
      ensures State() == EMPTY_ROOM
    {
      queue, seen, admitted, sessions := [], map[], map[], map[];
      bucket, closed, nonces := None, false, map[];
    }
  }
}
