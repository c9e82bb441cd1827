/** What a visitor is told, and exactly when: by an attempt to get a ticket, by redeeming it, by
  joining the queue, and by the gate as a whole. */
module Answers {
  import opened Types
  import opened ZSet
  import opened Scripts
  import opened Runs
  import opened Invariants
  import opened Exchange
  import opened RateLimit
  import opened Gate
  import Slots
  import Sessions
  import Ticks

  /** The token is genuine, of the purpose, in date, of this room and, if bound, of this client. */
  predicate Good(c: Config, token: Presented, owner: Owner, now: int, purpose: Purpose) {
    && token.genuine && token.claims.purpose == purpose && now <= token.claims.exp * 1000
    && (c.bind ==> token.claims.client == Some(owner)) && token.claims.room == c.name
  }

  lemma AcceptsGood(c: Config, token: Presented, owner: Owner, now: int, purpose: Purpose)
    ensures Verify(c, token, owner, now, purpose) == Accepted <==> Good(c, token, owner, now, purpose)
  {
  }

  // ----- attempts

  /** The room as the attempt reads it, after its tick and what others did since. */
  function ReadRoom(c: Config, w: World, y: AdmitWeather): Room {
    Tidy(After(c, w, TickTrace(y) + y.between), y.readAt).room
  }

  /** The four answers to an attempt. A ticket is the visitor's own, bound to the client that created
    the session, good for the time to live of tickets, and logged. */
  lemma AttemptAnswers(c: Config, w: World, sid: Sid, caller: Option<Owner>, y: AdmitWeather)
    ensures var (trace, attempt) := TryAdmitTrace(c, w, sid, caller, y);
            var up, m := !y.tickDown && !y.readDown, ReadRoom(c, w, y).sessions;
            && (attempt == Unreachable <==> !up && !c.failOpen)
            && (attempt == NotFound <==> up && sid !in m)
            && (attempt == StillWaiting <==> up && sid in m && m[sid].status != Admitted)
            && (attempt.Ticketed? <==> if up then sid in m && m[sid].status == Admitted else c.failOpen)
            && (attempt.Ticketed? ==>
                  && attempt.ticket.sid == sid && attempt.ticket.room == c.name && attempt.ticket.purpose == Ticket
                  && attempt.ticket.iat == Seconds(y.readAt) && attempt.ticket.exp == Seconds(y.readAt) + c.tokenTtl
                  && attempt.ticket.nonce == y.nonce
                  && attempt.ticket.client == if !c.bind then None else if up then Some(m[sid].owner) else caller)
  {
    hide TickTrace, Expire;
  }

  lemma TicketIsLogged(c: Config, w: World, sid: Sid, caller: Option<Owner>, y: AdmitWeather)
    requires TryAdmitTrace(c, w, sid, caller, y).1.Ticketed?
    ensures var (trace, attempt) := TryAdmitTrace(c, w, sid, caller, y);
            var log, up := After(c, w, trace).log, !y.tickDown && !y.readDown;
            && |log| > 0 && log[|log| - 1] == (if up then Minted(attempt.ticket) else OpenTicket(attempt.ticket))
            && attempt.ticket in After(c, w, trace).issued
  {
    var early := if y.tickDown then [] else TickTrace(y) + y.between;
    var up := !y.tickDown && !y.readDown;
    var last := Happening(y.readAt, y.readAt, if up then Mint(sid, y.nonce) else MintOpen(sid, caller, y.nonce));
    assert TryAdmitTrace(c, w, sid, caller, y).0 == early + [last] by {
      hide After, Tidy, TickTrace, Issue, OpenClaims;
    }
    AfterConcat(c, w, early, [last]);
    AfterOne(c, After(c, w, early), last);
    var m := Tidy(After(c, w, early), y.readAt).room.sessions;
    hide After, Tidy, TickTrace, Issue, OpenClaims, Next, Unforgeable;
    if up {
      MintLogs(c, After(c, w, early), y.readAt, sid, y.nonce);
    } else {
      OpenMintLogs(c, After(c, w, early), y.readAt, sid, caller, y.nonce);
    }
  }

  lemma MintLogs(c: Config, w: World, at: int, sid: Sid, nonce: Nonce)
    requires var m := Tidy(w, at).room.sessions; sid in m && m[sid].status == Admitted
    ensures var t := Issue(c, sid, Tidy(w, at).room.sessions[sid].owner, at, c.tokenTtl, nonce, Ticket);
            var w' := Next(c, w, Happening(at, at, Mint(sid, nonce)));
            w'.log == w.log + [Minted(t)] && t in w'.issued
  {
    hide Issue, Expire;
  }

  lemma OpenMintLogs(c: Config, w: World, at: int, sid: Sid, caller: Option<Owner>, nonce: Nonce)
    requires c.failOpen
    ensures var t, w' := OpenClaims(c, at, sid, caller, nonce), Next(c, w, Happening(at, at, MintOpen(sid, caller, nonce)));
            w'.log == w.log + [OpenTicket(t)] && t in w'.issued
  {
    hide OpenClaims, Expire;
  }

  /** With nobody in between, the attempt reads what its own tick left: for a batch of a thousand, or
    for what an injected strategy allows, if that is less; and none at all if it allows none. */
  lemma AttemptTicks(c: Config, w: World, y: AdmitWeather)
    requires y.between == []
    ensures var asked := if y.slots.Some? && y.slots.value < 1000 then y.slots.value else 1000;
            var ticked := Scripts.Tick(c.limits, Expire(w.room, y.tickAt), y.tickAt, asked, y.tickAt).0;
            ReadRoom(c, w, y) == Expire(if asked > 0 then ticked else w.room, y.readAt)
  {
    assert TickTrace(y) + y.between == TickTrace(y);
    AfterNone(c, w);
    if TickTrace(y) != [] {
      AfterOne(c, w, TickTrace(y)[0]);
      TickIsNext(c, w, TickTrace(y)[0]);
    }
    hide Scripts.Tick, Expire, After, Next;
  }

  /** The tick of an attempt returns at most a thousand sessions, and no more than an injected strategy
    allows. */
  lemma BatchIsBounded(c: Config, w: World, y: AdmitWeather)
    requires Inv(c.limits, w.room)
    ensures var w' := After(c, w, TickTrace(y));
            && |w.log| <= |w'.log| <= |w.log| + 1000
            && (y.slots.Some? ==> |w'.log| <= |w.log| + Max(0, y.slots.value))
  {
    if TickTrace(y) == [] {
      AfterNone(c, w);
    } else {
      var h := TickTrace(y)[0];
      AfterOne(c, w, h);
      var x := Tidy(w, h.clock);
      hide Scripts.Tick, Inv, Expire;
      ExpireInv(c.limits, w.room, h.clock);
      AtMostAsked(c.limits, x.room, h.clock, h.act.op.maxN, h.act.op.now);
    }
  }

  lemma AtMostAsked(l: Limits, r: Room, clock: int, maxN: int, now: int)
    requires Inv(l, r) && maxN > 0
    ensures |Scripts.Tick(l, r, clock, maxN, now).1| <= maxN
  {
    var (r', out) := Scripts.Tick(l, r, clock, maxN, now);
    hide Scripts.Tick, Inv, Sids, Present;
    Fairness.TickConserves(l, r, clock, maxN, now);
    Ticks.TickPopsAsManyAsItMay(l, r, clock, maxN, now);
    var n := Fairness.Popped(l, r, maxN, now);
    Fairness.InvDistinct(l, r, n);
    PresentIs(r.queue[..n], r.sessions);
  }

  /** A lone waiter in an open room gets its ticket by asking for it: the attempt ticks, the tick
    returns the session, and the ticket is signed and logged right after. */
  lemma LoneWaiterGetsTicket(c: Config, w: World, sid: Sid, score: real, caller: Option<Owner>, y: AdmitWeather)
    requires Inv(c.limits, w.room) && w.room.queue == [Entry(sid, score)] && !w.room.closed
    requires w.room.admitted == map[] && w.room.bucket.None?
    requires sid in w.room.sessions && Max(y.tickAt, y.readAt) <= w.room.sessions[sid].expireAt
    requires !y.tickDown && !y.readDown && y.between == [] && (y.slots.Some? ==> y.slots.value > 0)
    ensures var (trace, attempt) := TryAdmitTrace(c, w, sid, caller, y);
            && attempt == Ticketed(Issue(c, sid, w.room.sessions[sid].owner, y.readAt, c.tokenTtl, y.nonce, Ticket))
            && After(c, w, trace).log == w.log + [Admission(sid), Minted(attempt.ticket)]
            && After(c, w, trace).room.admitted == map[sid := y.tickAt + c.limits.grace]
  {
    LoneTrace(c, w, sid, caller, y);
    hide Inv, Issue, After, TickTrace, Tidy, TryAdmitTrace;
    LoneSteps(c, w, sid, score, TickTrace(y)[0], y);
  }

  lemma LoneSteps(c: Config, w: World, sid: Sid, score: real, tick: Happening, y: AdmitWeather)
    requires Inv(c.limits, w.room) && w.room.queue == [Entry(sid, score)] && !w.room.closed
    requires w.room.admitted == map[] && w.room.bucket.None?
    requires sid in w.room.sessions && Max(y.tickAt, y.readAt) <= w.room.sessions[sid].expireAt
    requires tick.act.Store? && tick.act.op.Tick? && tick.clock == tick.act.op.now == y.tickAt && tick.act.op.maxN > 0
    ensures var m := Tidy(After(c, w, [tick]), y.readAt).room.sessions;
            sid in m && m[sid].status == Admitted && m[sid].owner == w.room.sessions[sid].owner
    ensures var w' := After(c, w, [tick] + [Happening(y.readAt, y.readAt, Mint(sid, y.nonce))]);
            && w'.log == w.log + [Admission(sid), Minted(Issue(c, sid, w.room.sessions[sid].owner, y.readAt, c.tokenTtl, y.nonce, Ticket))]
            && w'.room.admitted == map[sid := y.tickAt + c.limits.grace]
  {
    hide Inv, Issue, After, Next, Tidy;
    TickOfLoneWaiter(c, w, sid, score, tick);
    AfterOne(c, w, tick);
    MintOfAdmitted(c, Next(c, w, tick), sid, y);
    MintAfterTick(c, w, tick, sid, Issue(c, sid, w.room.sessions[sid].owner, y.readAt, c.tokenTtl, y.nonce, Ticket), y);
  }

  lemma MintAfterTick(c: Config, w: World, tick: Happening, sid: Sid, t: Claims, y: AdmitWeather)
    requires Next(c, w, tick).log == w.log + [Admission(sid)]
    requires var h := Happening(y.readAt, y.readAt, Mint(sid, y.nonce));
             var w1, w2 := Next(c, w, tick), After(c, Next(c, w, tick), [h]);
             w2.log == w1.log + [Minted(t)] && w2.room.admitted == w1.room.admitted
    ensures var w' := After(c, w, [tick] + [Happening(y.readAt, y.readAt, Mint(sid, y.nonce))]);
            w'.log == w.log + [Admission(sid), Minted(t)] && w'.room.admitted == Next(c, w, tick).room.admitted
  {
    hide After, Next, Unforgeable;
    AfterOne(c, w, tick);
    AfterConcat(c, w, [tick], [Happening(y.readAt, y.readAt, Mint(sid, y.nonce))]);
    TwoMore(w.log, Admission(sid), Minted(t));
  }

  lemma TwoMore(log: seq<Fact>, a: Fact, b: Fact)
    ensures log + [a] + [b] == log + [a, b]
  {
  }

  /** An attempt that nobody interferes with is a tick and a read. */
  lemma LoneTrace(c: Config, w: World, sid: Sid, caller: Option<Owner>, y: AdmitWeather)
    requires !y.tickDown && !y.readDown && y.between == [] && (y.slots.Some? ==> y.slots.value > 0)
    ensures |TickTrace(y)| == 1
    ensures var tick := TickTrace(y)[0];
            var m := Tidy(After(c, w, [tick]), y.readAt).room.sessions;
            && tick.act.Store? && tick.act.op.Tick? && tick.clock == tick.act.op.now == y.tickAt && tick.act.op.maxN > 0
            && (sid in m && m[sid].status == Admitted ==>
                  TryAdmitTrace(c, w, sid, caller, y)
                  == ([tick] + [Happening(y.readAt, y.readAt, Mint(sid, y.nonce))],
                      Ticketed(Issue(c, sid, m[sid].owner, y.readAt, c.tokenTtl, y.nonce, Ticket))))
  {
    assert TickTrace(y) + y.between == [TickTrace(y)[0]];
    hide After, Tidy, Issue;
  }

  /** A read that finds a live hash saying "admitted" signs the ticket. */
  lemma MintOfAdmitted(c: Config, w: World, sid: Sid, y: AdmitWeather)
    requires sid in w.room.sessions && w.room.sessions[sid].status == Admitted && y.readAt <= w.room.sessions[sid].expireAt
    ensures var m, t := Tidy(w, y.readAt).room.sessions, Issue(c, sid, w.room.sessions[sid].owner, y.readAt, c.tokenTtl, y.nonce, Ticket);
            && sid in m && m[sid] == w.room.sessions[sid]
            && var w' := After(c, w, [Happening(y.readAt, y.readAt, Mint(sid, y.nonce))]);
            && w'.log == w.log + [Minted(t)] && w'.room.admitted == w.room.admitted
  {
    AfterOne(c, w, Happening(y.readAt, y.readAt, Mint(sid, y.nonce)));
    hide Issue, After;
  }

  lemma TickOfLoneWaiter(c: Config, w: World, sid: Sid, score: real, h: Happening)
    requires Inv(c.limits, w.room) && w.room.queue == [Entry(sid, score)] && !w.room.closed
    requires w.room.admitted == map[] && w.room.bucket.None?
    requires sid in w.room.sessions && h.clock <= w.room.sessions[sid].expireAt
    requires h.act.Store? && h.act.op.Tick? && h.act.op.maxN > 0
    ensures var w1 := Next(c, w, h);
            && w1.log == w.log + [Admission(sid)] && sid in w1.room.sessions
            && w1.room.sessions[sid] == w.room.sessions[sid].(status := Admitted)
            && w1.room.admitted == map[sid := h.act.op.now + c.limits.grace]
  {
    var x := Tidy(w, h.clock).room;
    hide Inv, Scripts.Tick, Tidy, Next, Facts;
    LoneRoom(c, w, sid, h.clock);
    TickIsNext(c, w, h);
    FactsOfOne(sid);
    Slots.LoneWaiterIsAdmitted(c.limits, x, h.clock, h.act.op.maxN, h.act.op.now, sid, score);
  }

  lemma LoneRoom(c: Config, w: World, sid: Sid, clock: int)
    requires Inv(c.limits, w.room) && sid in w.room.sessions && clock <= w.room.sessions[sid].expireAt && w.room.bucket.None?
    ensures var x := Tidy(w, clock).room;
            && Inv(c.limits, x) && sid in x.sessions && x.sessions[sid] == w.room.sessions[sid]
            && x.queue == w.room.queue && x.closed == w.room.closed && x.admitted == w.room.admitted && x.bucket.None?
  {
    ExpireInv(c.limits, w.room, clock);
    hide Inv;
  }

  lemma TickIsNext(c: Config, w: World, h: Happening)
    requires h.act.Store? && h.act.op.Tick?
    ensures var (r, out) := Scripts.Tick(c.limits, Tidy(w, h.clock).room, h.clock, h.act.op.maxN, h.act.op.now);
            Next(c, w, h).room == r && Next(c, w, h).log == w.log + Facts(out)
  {
    hide Scripts.Tick, Facts, Expire;
  }

  lemma FactsOfOne(sid: Sid)
    ensures Facts([sid]) == [Admission(sid)]
  {
  }

  // ----- redeeming

  /** The three answers to a ticket, in the order of the checks; and what a pass says. */
  lemma RedeemAnswers(c: Config, w: World, token: Presented, owner: Owner, y: Weather)
    ensures var (trace, redemption) := RedeemTrace(c, w, token, owner, y);
            var valid := Good(c, token, owner, y.spendAt, Ticket) && y.spendAt < token.claims.exp * 1000;
            var unused := token.claims.nonce in w.room.nonces ==> w.room.nonces[token.claims.nonce] < y.spendAt;
            var slots := After(c, w, [SpendOf(token, owner, y)] + y.between).room.admitted;
            var sid, deadline := token.claims.sid, y.grantAt + c.admittedTtl * 1000;
            && (redemption == Down <==> valid && (y.spendDown || (unused && y.grantDown)))
            && (redemption.Granted? <==>
                  valid && !y.spendDown && unused && !y.grantDown && sid in slots && slots[sid] != deadline)
            && (redemption.Granted? ==>
                  redemption.pass == Claims(sid, c.name, if c.bind then Some(owner) else None, Seconds(y.grantAt),
                                            Seconds(y.grantAt) + c.admittedTtl, y.passNonce, Pass))
  {
    AcceptsGood(c, token, owner, y.spendAt, Ticket);
    hide Verify, After;
  }

  /** The pass of a redemption is good for its client to its last instant. */
  lemma PassIsGood(c: Config, w: World, token: Presented, owner: Owner, y: Weather, now: int)
    requires RedeemTrace(c, w, token, owner, y).1.Granted?
    ensures Good(c, Presented(RedeemTrace(c, w, token, owner, y).1.pass, true), owner, now, Pass)
       <==> now <= (Seconds(y.grantAt) + c.admittedTtl) * 1000
  {
    RedeemAnswers(c, w, token, owner, y);
    hide RedeemTrace, After;
  }

  // ----- joining

  /** The hits of the client's address in its window, this one included. */
  function HitNumber(y: Weather): int {
    if y.hits.Some? && y.joinAt <= y.hits.value.expireAt then y.hits.value.count + 1 else 1
  }

  /** The session belongs to another client. */
  predicate Foreign(c: Config, r: Room, sid: Sid, owner: Owner, at: int) {
    !r.closed && c.bind && sid in r.sessions && at <= r.sessions[sid].expireAt && r.sessions[sid].owner != owner
  }

  /** The answers to joining: too many, if the address is over its limit; the failure mode's, if the
    store is down at the first or at a needed second join; closed, if the room is closed at the join
    that counts; and otherwise a place under the visitor's session, or under a new one if that
    belongs to another client. */
  lemma JoinAnswers(c: Config, w: World, req: Request, y: Weather)
    ensures var response := JoinTrace(c, w, req, y).response;
            var sid := if req.sid.Some? then req.sid.value else y.freshSid;
            var first := Happening(y.joinAt, y.joinAt, Store(JoinOp(c, sid, y.score, req.owner, y.joinAt)));
            var again := Foreign(c, w.room, sid, req.owner, y.joinAt);
            var over := HitNumber(y) > c.joinLimit;
            var down := !over && (y.joinDown || (again && y.rejoinDown));
            var closed := if again then After(c, w, [first] + y.meanwhile).room.closed else w.room.closed;
            && (response == TooMany <==> over)
            && (response == Unavailable <==> down && !c.failOpen)
            && (response == Through <==> down && c.failOpen)
            && (response == RoomClosed <==> !over && !down && closed)
            && (response.Waiting? <==> !over && !down && !closed)
            && (response.Waiting? ==> response.sid == if again then y.otherSid else sid)
  {
    var sid := if req.sid.Some? then req.sid.value else y.freshSid;
    var first := Happening(y.joinAt, y.joinAt, Store(JoinOp(c, sid, y.score, req.owner, y.joinAt)));
    JoinReplies(c, w, sid, y.score, req.owner, y.joinAt);
    JoinReplies(c, After(c, w, [first] + y.meanwhile), y.otherSid, y.otherScore, req.owner, y.rejoinAt);
    hide JoinReply, After, JoinOp, Foreign;
  }

  lemma JoinReplies(c: Config, w: World, sid: Sid, score: real, owner: Owner, at: int)
    ensures JoinReply(c, w, sid, score, owner, at) == -1 <==> w.room.closed
    ensures JoinReply(c, w, sid, score, owner, at) == -2 <==> Foreign(c, w.room, sid, owner, at)
  {
    hide Sids, Place, AddNX;
  }

  /** Who is told to wait holds a slot or queues: refreshed at the join that counts, with a hash that
    lasts the whole time to live of waiters and, when sessions are bound, is the visitor's own. */
  lemma WaitingIsQueued(c: Config, w: World, req: Request, y: Weather)
    requires Inv(c.limits, w.room) && c.queuedTtl > 0 && JoinTrace(c, w, req, y).response.Waiting?
    requires var (before, at) := CountingJoin(c, w, req, y);
             !Foreign(c, before.room, JoinTrace(c, w, req, y).response.sid, req.owner, at)
    ensures var s, r := JoinTrace(c, w, req, y).response.sid, After(c, w, JoinTrace(c, w, req, y).trace).room;
            var (_, at) := CountingJoin(c, w, req, y);
            s in r.admitted || Refreshed(c, r, s, req.owner, at)
  {
    JoinAnswers(c, w, req, y);
    var sid := if req.sid.Some? then req.sid.value else y.freshSid;
    var first := Happening(y.joinAt, y.joinAt, Store(JoinOp(c, sid, y.score, req.owner, y.joinAt)));
    var again := Happening(y.rejoinAt, y.rejoinAt, Store(JoinOp(c, y.otherSid, y.otherScore, req.owner, y.rejoinAt)));
    AfterInv(c, w, [first] + y.meanwhile);
    AfterOne(c, w, first);
    AfterOne(c, After(c, w, [first] + y.meanwhile), again);
    AfterConcat(c, w, [first] + y.meanwhile, [again]);
    JoinReplies(c, w, sid, y.score, req.owner, y.joinAt);
    hide After, Next, Refreshed, Foreign, Inv, JoinReply, JoinOp, Unforgeable;
    if Foreign(c, w.room, sid, req.owner, y.joinAt) {
      JoinRefreshes(c, After(c, w, [first] + y.meanwhile), y.otherSid, y.otherScore, req.owner, y.rejoinAt);
    } else {
      JoinRefreshes(c, w, sid, y.score, req.owner, y.joinAt);
    }
  }

  /** The world and the time of the join that counts: the second one for a foreign session. */
  function CountingJoin(c: Config, w: World, req: Request, y: Weather): (World, int) {
    var sid := if req.sid.Some? then req.sid.value else y.freshSid;
    var first := Happening(y.joinAt, y.joinAt, Store(JoinOp(c, sid, y.score, req.owner, y.joinAt)));
    if Foreign(c, w.room, sid, req.owner, y.joinAt) then (After(c, w, [first] + y.meanwhile), y.rejoinAt) else (w, y.joinAt)
  }

  ghost predicate Refreshed(c: Config, r: Room, s: Sid, owner: Owner, at: int) {
    && s in Sids(r.queue) && s in r.seen && r.seen[s] == Seconds(at)
    && s in r.sessions && r.sessions[s].expireAt == at + c.queuedTtl * 1000 && (c.bind ==> r.sessions[s].owner == owner)
  }

  lemma JoinRefreshes(c: Config, w: World, sid: Sid, score: real, owner: Owner, at: int)
    requires Inv(c.limits, w.room) && c.queuedTtl > 0 && !w.room.closed && !Foreign(c, w.room, sid, owner, at)
    ensures var r := Next(c, w, Happening(at, at, Store(JoinOp(c, sid, score, owner, at)))).room;
            sid in r.admitted || Refreshed(c, r, sid, owner, at)
  {
    var x := Tidy(w, at).room;
    ExpireInv(c.limits, w.room, at);
    assert sid in x.sessions ==> sid in w.room.sessions && x.sessions[sid] == w.room.sessions[sid] && at <= x.sessions[sid].expireAt;
    hide Expire, Inv, Sids;
    Sessions.EnqueueReplies(c.limits, x, at, sid, score, c.queuedTtl, Seconds(at), owner, c.bind);
    SidsAre(Scripts.Enqueue(x, at, sid, score, c.queuedTtl, Seconds(at), owner, c.bind).0.queue);
    hide Scripts.Enqueue;
  }

  // ----- the gate

  /** A good pass lets its holder in, whatever else the request carries, and whatever is down: it
    costs a look at the token, and changes nothing but the log. */
  lemma GoodPassLetsIn(c: Config, w: World, req: Request, y: Weather)
    requires !req.allowlisted && req.pass.Some? && Good(c, req.pass.value, req.owner, y.spendAt, Pass)
    ensures var outcome := Decide(c, w, req, y);
            var w', p := After(c, w, outcome.trace), req.pass.value.claims;
            && outcome.response == Through
            && w' == Tidy(w, y.spendAt).(log := w.log + [Entered(p.sid, p)])
            && w'.room.queue == w.room.queue && w'.room.seen == w.room.seen && w'.room.admitted == w.room.admitted
            && w'.room.closed == w.room.closed
            && (forall n :: n in w'.room.nonces <==> n in w.room.nonces && y.spendAt <= w.room.nonces[n])
  {
    AcceptsGood(c, req.pass.value, req.owner, y.spendAt, Pass);
    AfterOne(c, w, Happening(y.spendAt, y.spendAt, Show(req.pass.value, req.owner)));
    hide Verify;
  }

  /** Whom the gate lets through, exactly: the allowlisted, holders of a good pass, and those whose
    ticket is redeemed into one; and in a fail-open room whoever meets an outage while redeeming or,
    failing that, while joining. */
  lemma ThroughExactly(c: Config, w: World, req: Request, y: Weather)
    ensures var outcome := Decide(c, w, req, y);
            var pass := req.pass.Some? && Good(c, req.pass.value, req.owner, y.spendAt, Pass);
            var (trace, redemption) := if req.ticket.Some? then RedeemTrace(c, w, req.ticket.value, req.owner, y) else ([], Refused);
            outcome.response == Through
            <==> || req.allowlisted || pass || redemption.Granted?
                 || (c.failOpen && (redemption == Down || JoinTrace(c, After(c, w, trace), req, y).response == Through))
  {
    if req.pass.Some? {
      AcceptsGood(c, req.pass.value, req.owner, y.spendAt, Pass);
    }
    var (trace, _) := if req.ticket.Some? then RedeemTrace(c, w, req.ticket.value, req.owner, y) else ([], Refused);
    AfterNone(c, w);
    JoinAnswers(c, After(c, w, trace), req, y);
    hide Verify, RedeemTrace, JoinTrace, After, Foreign;
  }

  /** A fail-closed gate lets nobody else in. */
  lemma ThroughWhenFailClosed(c: Config, w: World, req: Request, y: Weather)
    requires !c.failOpen
    ensures Decide(c, w, req, y).response == Through
       <==> || req.allowlisted
            || (req.pass.Some? && Good(c, req.pass.value, req.owner, y.spendAt, Pass))
            || (req.ticket.Some? && RedeemTrace(c, w, req.ticket.value, req.owner, y).1.Granted?)
  {
    ThroughExactly(c, w, req, y);
    hide Decide, RedeemTrace, JoinTrace, Good;
  }

  /** Everybody else is told what joining answers, in the world the refused redemption left. */
  lemma OthersJoin(c: Config, w: World, req: Request, y: Weather)
    requires !req.allowlisted && !(req.pass.Some? && Good(c, req.pass.value, req.owner, y.spendAt, Pass))
    requires req.ticket.Some? ==>
               var redemption := RedeemTrace(c, w, req.ticket.value, req.owner, y).1;
               redemption == Refused || (redemption == Down && !c.failOpen)
    ensures var trace := if req.ticket.Some? then RedeemTrace(c, w, req.ticket.value, req.owner, y).0 else [];
            var joined := JoinTrace(c, After(c, w, trace), req, y);
            Decide(c, w, req, y).response == joined.response
            && After(c, w, Decide(c, w, req, y).trace) == After(c, After(c, w, trace), joined.trace)
  {
    if req.pass.Some? {
      AcceptsGood(c, req.pass.value, req.owner, y.spendAt, Pass);
    }
    var trace := if req.ticket.Some? then RedeemTrace(c, w, req.ticket.value, req.owner, y).0 else [];
    AfterNone(c, w);
    AfterConcat(c, w, trace, JoinTrace(c, After(c, w, trace), req, y).trace);
    hide Verify, RedeemTrace, JoinTrace, After, Good;
  }
}
