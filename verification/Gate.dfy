/** The gate in front of a protected page: allowlist, pass, ticket, queue.

  Between its own steps other workers may do anything; what they do, the times of the steps, the
  outages met, the hits counted for the client's address and the random values drawn are given as a
  `Weather`. */
module Gate {
  import opened Types
  import opened Scripts
  import opened Runs
  import opened Exchange
  import opened RateLimit
  import Invariants

  datatype Request = Request(
    owner: Owner, allowlisted: bool, pass: Option<Presented>, ticket: Option<Presented>, sid: Option<Sid>)

  datatype Response = Through | Waiting(sid: Sid) | TooMany | RoomClosed | Unavailable

  datatype Redemption = Granted(pass: Claims) | Refused | Down

  datatype Weather = Weather(
    spendAt: int, between: seq<Happening>, grantAt: int, passNonce: Nonce,  // redeeming
    spendDown: bool, grantDown: bool,
    hits: Option<Counter>, joinDown: bool,                                 // joining the queue
    joinAt: int, freshSid: Sid, score: real,
    meanwhile: seq<Happening>, rejoinDown: bool, rejoinAt: int, otherSid: Sid, otherScore: real)

  /** What a request does to the world, and the answer to it. */
  datatype Outcome = Outcome(trace: seq<Happening>, response: Response)

  // ----- redeeming

  function SpendOf(token: Presented, owner: Owner, y: Weather): Happening {
    Happening(y.spendAt, y.spendAt, Spend(token, owner))
  }

  function GrantOf(token: Presented, owner: Owner, y: Weather): Happening {
    Happening(y.grantAt, y.grantAt, Grant(token.claims, owner, y.passNonce))
  }

  function RedeemTrace(c: Config, w: World, token: Presented, owner: Owner, y: Weather): (seq<Happening>, Redemption) {
    if Verify(c, token, owner, y.spendAt, Ticket) != Accepted || TimeLeft(token.claims, y.spendAt) <= 0 then ([], Refused)
    else if y.spendDown then ([], Down)
    else if token.claims.nonce in Tidy(w, y.spendAt).room.nonces then ([SpendOf(token, owner, y)], Refused)
    else
      var trace := [SpendOf(token, owner, y)] + y.between;
      if y.grantDown then (trace, Down)
      else
        var room := Tidy(After(c, w, trace), y.grantAt).room;
        (trace + [GrantOf(token, owner, y)],
         if Scripts.Hold(room, y.grantAt, token.claims.sid, y.grantAt, c.admittedTtl).1 then
           Granted(Issue(c, token.claims.sid, owner, y.grantAt, c.admittedTtl, y.passNonce, Pass))
         else Refused)
  }

  /** A verified ticket whose nonce was claimed is refused exactly when the slot is gone or its
    deadline happens to be the one a pass issued now would need; in the latter case the slot is held
    for the time of a pass, and there is none. */
  lemma RefusedThoughHeld(c: Config, w: World, token: Presented, owner: Owner, y: Weather)
    requires Verify(c, token, owner, y.spendAt, Ticket) == Accepted && TimeLeft(token.claims, y.spendAt) > 0
    requires !y.spendDown && token.claims.nonce !in Tidy(w, y.spendAt).room.nonces && !y.grantDown
    requires OwnClaim(c, w, token, owner, y)
    ensures var slots := After(c, w, [SpendOf(token, owner, y)] + y.between).room.admitted;
            var (trace, redemption) := RedeemTrace(c, w, token, owner, y);
            var sid, deadline := token.claims.sid, y.grantAt + c.admittedTtl * 1000;
            && (redemption == Refused <==> sid in slots ==> slots[sid] == deadline)
            && (redemption != Refused <==> redemption.Granted?)
            && (sid in slots ==> After(c, w, trace).room.admitted == slots[sid := deadline])
  {
    var spend, grant := SpendOf(token, owner, y), GrantOf(token, owner, y);
    hide Verify, NonceTtl, Issue, Unforgeable, OwnClaim;
    Claimed(c, w, token, owner, y);
    var w2 := After(c, w, [spend] + y.between);
    AfterOne(c, w2, grant);
    AfterConcat(c, w, [spend] + y.between, [grant]);
  }

  /** The claim of a request is still pending when it comes to swap the ticket. */
  lemma Claimed(c: Config, w: World, token: Presented, owner: Owner, y: Weather)
    requires Verify(c, token, owner, y.spendAt, Ticket) == Accepted && TimeLeft(token.claims, y.spendAt) > 0
    requires token.claims.nonce !in Tidy(w, y.spendAt).room.nonces && OwnClaim(c, w, token, owner, y)
    ensures token.claims in After(c, w, [SpendOf(token, owner, y)] + y.between).pending
  {
    var spend := SpendOf(token, owner, y);
    AfterOne(c, w, spend);
    AfterConcat(c, w, [spend], y.between);
    hide Verify, Expire, NonceTtl;
    PendingThroughout(c, Next(c, w, spend), y.between, token.claims);
  }

  // ----- asking for a ticket

  /** Where an attempt to get a ticket stands. */
  datatype Attempt = Ticketed(ticket: Claims) | StillWaiting | NotFound | Unreachable

  /** What happens around an attempt; `slots` is the answer of an injected strategy. */
  datatype AdmitWeather = AdmitWeather(
    slots: Option<int>, tickAt: int, between: seq<Happening>, readAt: int, nonce: Nonce, tickDown: bool, readDown: bool)

  const MAX_BATCH := 1000

  /** The admission tick of an engine: an injected strategy can only narrow the batch. */
  function TickTrace(y: AdmitWeather): seq<Happening> {
    var maxN := if y.slots.Some? then Min(MAX_BATCH, y.slots.value) else MAX_BATCH;
    if maxN <= 0 then [] else [Happening(y.tickAt, y.tickAt, Act.Store(Op.Tick(maxN, y.tickAt)))]
  }

  /** When the store is down, a fail-open room signs a ticket all the same. */
  function WhenDown(c: Config, trace: seq<Happening>, sid: Sid, caller: Option<Owner>, y: AdmitWeather): (seq<Happening>, Attempt) {
    if c.failOpen then
      (trace + [Happening(y.readAt, y.readAt, MintOpen(sid, caller, y.nonce))],
       Ticketed(OpenClaims(c, y.readAt, sid, caller, y.nonce)))
    else (trace, Unreachable)
  }

  function TryAdmitTrace(c: Config, w: World, sid: Sid, caller: Option<Owner>, y: AdmitWeather): (seq<Happening>, Attempt) {
    if y.tickDown then WhenDown(c, [], sid, caller, y)
    else
      var trace := TickTrace(y) + y.between;
      if y.readDown then WhenDown(c, trace, sid, caller, y)
      else
        var m := Tidy(After(c, w, trace), y.readAt).room.sessions;
        if sid !in m then (trace, NotFound)
        else if m[sid].status != Admitted then (trace, StillWaiting)
        else
          (trace + [Happening(y.readAt, y.readAt, Mint(sid, y.nonce))],
           Ticketed(Issue(c, sid, m[sid].owner, y.readAt, c.tokenTtl, y.nonce, Ticket)))
  }

  /** In a fail-closed room a ticket is only handed to a session that holds a slot at that moment,
    whatever other workers did between the tick and the read. */
  lemma AttemptsAreForSlots(c: Config, before: seq<Happening>, sid: Sid, caller: Option<Owner>, y: AdmitWeather)
    requires !c.failOpen
    ensures var w := After(c, EMPTY_WORLD, before);
            var (trace, attempt) := TryAdmitTrace(c, w, sid, caller, y);
            attempt.Ticketed? ==> attempt.ticket.sid == sid && sid in After(c, w, trace).room.admitted
  {
    var w := After(c, EMPTY_WORLD, before);
    var (trace, attempt) := TryAdmitTrace(c, w, sid, caller, y);
    if attempt.Ticketed? {
      var early := TickTrace(y) + y.between;
      var last := Happening(y.readAt, y.readAt, Mint(sid, y.nonce));
      Invariants.EmptyInv(c.limits);
      AfterInv(c, EMPTY_WORLD, before);
      AfterInv(c, w, early);
      AfterConcat(c, w, early, [last]);
      AfterOne(c, After(c, w, early), last);
      SlotBehindHash(c, After(c, w, early), sid, y.readAt);
    }
  }

  lemma SlotBehindHash(c: Config, w: World, sid: Sid, at: int)
    requires Invariants.Inv(c.limits, w.room)
    ensures var r := Tidy(w, at).room;
            sid in r.sessions && r.sessions[sid].status == Admitted ==> sid in r.admitted
  {
    Invariants.ExpireInv(c.limits, w.room, at);
  }

  // ----- joining the queue

  function JoinOp(c: Config, sid: Sid, score: real, owner: Owner, at: int): Op {
    Op.Enqueue(sid, score, c.queuedTtl, Seconds(at), owner, c.bind)
  }

  function JoinReply(c: Config, w: World, sid: Sid, score: real, owner: Owner, at: int): int {
    Scripts.Enqueue(Tidy(w, at).room, at, sid, score, c.queuedTtl, Seconds(at), owner, c.bind).1
  }

  const JOIN_WINDOW := 60

  /** The rate limiter's answer for the client's address. */
  predicate Allowed(c: Config, y: Weather) {
    Hit(JOIN_WINDOW, y.hits, y.joinAt).1 <= c.joinLimit
  }

  /** The answer when the store is down. */
  function JoinDown(c: Config, at: int): Outcome {
    if c.failOpen then Outcome([Happening(at, at, Outage)], Through) else Outcome([], Unavailable)
  }

  function JoinTrace(c: Config, w: World, req: Request, y: Weather): Outcome {
    if !Allowed(c, y) then Outcome([], TooMany)
    else if y.joinDown then JoinDown(c, y.joinAt)
    else
      var sid := if req.sid.Some? then req.sid.value else y.freshSid;
      var first := Happening(y.joinAt, y.joinAt, Store(JoinOp(c, sid, y.score, req.owner, y.joinAt)));
      var reply := JoinReply(c, w, sid, y.score, req.owner, y.joinAt);
      if reply == -2 then
        var trace := [first] + y.meanwhile;
        if y.rejoinDown then
          var down := JoinDown(c, y.rejoinAt);
          Outcome(trace + down.trace, down.response)
        else
          var again := Happening(y.rejoinAt, y.rejoinAt, Store(JoinOp(c, y.otherSid, y.otherScore, req.owner, y.rejoinAt)));
          var reply := JoinReply(c, After(c, w, trace), y.otherSid, y.otherScore, req.owner, y.rejoinAt);
          Outcome(trace + [again], if reply == -1 then RoomClosed else Waiting(y.otherSid))
      else Outcome([first], if reply == -1 then RoomClosed else Waiting(sid))
  }

  // ----- the decision

  function Decide(c: Config, w: World, req: Request, y: Weather): Outcome {
    if req.allowlisted then Outcome([], Through)
    else if req.pass.Some? && Verify(c, req.pass.value, req.owner, y.spendAt, Pass) == Accepted then
      Outcome([Happening(y.spendAt, y.spendAt, Show(req.pass.value, req.owner))], Through)
    else if req.ticket.None? then JoinTrace(c, w, req, y)
    else
      var (trace, redemption) := RedeemTrace(c, w, req.ticket.value, req.owner, y);
      if redemption.Granted? then Outcome(trace, Through)
      else if redemption.Down? && c.failOpen then
        Outcome(trace + [Happening(y.grantAt, y.grantAt, Outage)], Through)
      else
        var joined := JoinTrace(c, After(c, w, trace), req, y);
        Outcome(trace + joined.trace, joined.response)
  }

  /** Other workers swap only claims of their own: whenever one of them swaps the ticket, a further
    claim of it is pending. (After a flush several workers can hold claims of one ticket.) */
  ghost predicate LeavesTicket(c: Config, w: World, hs: seq<Happening>, t: Claims)
    decreases hs
  {
    hs == [] ||
    ((hs[0].act.Grant? && hs[0].act.ticket == t ==> w.pending[t] >= 2) && LeavesTicket(c, Next(c, w, hs[0]), hs[1..], t))
  }

  /** If this request claims the ticket, the others leave that claim alone. */
  ghost predicate OwnClaim(c: Config, w: World, token: Presented, owner: Owner, y: Weather) {
    var w' := Next(c, w, SpendOf(token, owner, y));
    w'.pending[token.claims] > w.pending[token.claims] ==> LeavesTicket(c, w', y.between, token.claims)
  }

  lemma PendingStays(c: Config, w: World, h: Happening, t: Claims)
    requires t in w.pending && (h.act.Grant? && h.act.ticket == t ==> w.pending[t] >= 2)
    ensures t in Next(c, w, h).pending
  {
    hide Expire, Apply, Output, Verify, Issue, Scripts.Hold, Scripts.Claim;
  }

  lemma {:induction false} PendingThroughout(c: Config, w: World, hs: seq<Happening>, t: Claims)
    requires t in w.pending && LeavesTicket(c, w, hs, t)
    ensures t in After(c, w, hs).pending
    decreases hs
  {
    if hs != [] {
      hide Next;
      PendingStays(c, w, hs[0], t);
      PendingThroughout(c, Next(c, w, hs[0]), hs[1..], t);
    }
  }

  /** The gate as it runs, against a shared world that others change. */
  class Guard {
    const config: Config
    var world: World

    constructor (config: Config)
      ensures this.config == config && world == EMPTY_WORLD
    {
      this.config := config;
      world := EMPTY_WORLD;
    }

    /** Other workers take some steps. */
    method Interfere(hs: seq<Happening>)
      modifies this
      ensures world == After(config, old(world), hs)
    {
      var i := 0;
      assert hs[0..] == hs;
      while i < |hs|
        invariant 0 <= i <= |hs|
        invariant After(config, world, hs[i..]) == After(config, old(world), hs)
      {
        assert hs[i..][1..] == hs[i + 1..];
        world := Next(config, world, hs[i]);
        i := i + 1;
      }
    }

    method VerifyPass(token: Presented, owner: Owner, now: int) returns (ok: bool)
      modifies this
      ensures ok <==> Verify(config, token, owner, now, Pass) == Accepted
      ensures world == if ok then Next(config, old(world), Happening(now, now, Show(token, owner))) else old(world)
    {
      ok := Verify(config, token, owner, now, Pass) == Accepted;
      if ok {
        world := Tidy(world, now);
        world := world.(log := world.log + [Entered(token.claims.sid, token.claims)]);
      }
    }

    method TickAdmit(y: AdmitWeather)
      modifies this
      ensures world == After(config, old(world), TickTrace(y))
    {
      var maxN := MAX_BATCH;
      if y.slots.Some? {
        maxN := Min(maxN, y.slots.value);
        if maxN <= 0 {
          return;
        }
      }
      var tick := Happening(y.tickAt, y.tickAt, Act.Store(Op.Tick(maxN, y.tickAt)));
      AfterOne(config, world, tick);
      world := Next(config, world, tick);
    }

    method TryAdmit(sid: Sid, caller: Option<Owner>, y: AdmitWeather) returns (attempt: Attempt)
      modifies this
      ensures var (trace, result) := TryAdmitTrace(config, old(world), sid, caller, y);
              world == After(config, old(world), trace) && attempt == result
    {
      hide Next, TickTrace, Issue, OpenClaims;
      AfterNone(config, world);
      ghost var trace: seq<Happening> := [];
      var down := y.tickDown;
      if !down {
        TickAdmit(y);
        AfterConcat(config, old(world), TickTrace(y), y.between);
        Interfere(y.between);
        trace := TickTrace(y) + y.between;
        down := y.readDown;
      }
      if down {
        if config.failOpen {
          ghost var open := Happening(y.readAt, y.readAt, MintOpen(sid, caller, y.nonce));
          AfterOne(config, world, open);
          AfterConcat(config, old(world), trace, [open]);
          world := Next(config, world, Happening(y.readAt, y.readAt, MintOpen(sid, caller, y.nonce)));
          return Ticketed(OpenClaims(config, y.readAt, sid, caller, y.nonce));
        }
        return Unreachable;
      }
      var m := Tidy(world, y.readAt).room.sessions;
      if sid !in m {
        return NotFound;
      }
      if m[sid].status != Admitted {
        return StillWaiting;
      }
      var ticket := Issue(config, sid, m[sid].owner, y.readAt, config.tokenTtl, y.nonce, Ticket);
      ghost var mint := Happening(y.readAt, y.readAt, Mint(sid, y.nonce));
      AfterOne(config, world, mint);
      AfterConcat(config, old(world), trace, [mint]);
      world := Next(config, world, Happening(y.readAt, y.readAt, Mint(sid, y.nonce)));
      return Ticketed(ticket);
    }

    method Redeem(token: Presented, owner: Owner, y: Weather) returns (redemption: Redemption)
      requires OwnClaim(config, world, token, owner, y)
      modifies this
      ensures var (trace, result) := RedeemTrace(config, old(world), token, owner, y);
              world == After(config, old(world), trace) && redemption == result
    {
      hide Scripts.Hold, Expire, Issue, Verify, NonceTtl;
      AfterNone(config, world);
      if Verify(config, token, owner, y.spendAt, Ticket) != Accepted {
        return Refused;
      }
      if TimeLeft(token.claims, y.spendAt) <= 0 {
        return Refused;
      }
      if y.spendDown {
        return Down;
      }
      AfterOne(config, world, SpendOf(token, owner, y));
      AfterConcat(config, world, [SpendOf(token, owner, y)], y.between);
      world := Tidy(world, y.spendAt);
      var (r, ok) := Scripts.Claim(world.room, y.spendAt, token.claims.nonce, NonceTtl(token.claims, y.spendAt));
      if !ok {
        return Refused;
      }
      world := world.(room := r, pending := world.pending + multiset{token.claims});
      assert world == Next(config, old(world), SpendOf(token, owner, y));
      PendingThroughout(config, world, y.between, token.claims);
      Interfere(y.between);
      if y.grantDown {
        return Down;
      }
      ghost var before := world;
      AfterOne(config, before, GrantOf(token, owner, y));
      AfterConcat(config, old(world), [SpendOf(token, owner, y)] + y.between, [GrantOf(token, owner, y)]);
      redemption := HoldAndIssue(token.claims, owner, y);
    }

    method HoldAndIssue(ticket: Claims, owner: Owner, y: Weather) returns (redemption: Redemption)
      requires ticket in world.pending
      modifies this
      ensures world == Next(config, old(world), Happening(y.grantAt, y.grantAt, Grant(ticket, owner, y.passNonce)))
      ensures redemption ==
        if Scripts.Hold(Tidy(old(world), y.grantAt).room, y.grantAt, ticket.sid, y.grantAt, config.admittedTtl).1 then
          Granted(Issue(config, ticket.sid, owner, y.grantAt, config.admittedTtl, y.passNonce, Pass))
        else Refused
    {
      hide Scripts.Hold, Expire, Issue;
      world := Tidy(world, y.grantAt);
      var (r, ok) := Scripts.Hold(world.room, y.grantAt, ticket.sid, y.grantAt, config.admittedTtl);
      world := world.(room := r, pending := world.pending - multiset{ticket});
      if !ok {
        return Refused;
      }
      var pass := Issue(config, ticket.sid, owner, y.grantAt, config.admittedTtl, y.passNonce, Pass);
      world := world.(issued := world.issued + {pass}, log := world.log + [Redeemed(ticket, pass), Entered(ticket.sid, pass)]);
      return Granted(pass);
    }

    method Store(sid: Sid, score: real, owner: Owner, at: int) returns (reply: int)
      modifies this
      ensures world == Next(config, old(world), Happening(at, at, Act.Store(JoinOp(config, sid, score, owner, at))))
      ensures reply == JoinReply(config, old(world), sid, score, owner, at)
    {
      hide Scripts.Enqueue, Expire;
      reply := JoinReply(config, world, sid, score, owner, at);
      world := Next(config, world, Happening(at, at, Act.Store(JoinOp(config, sid, score, owner, at))));
    }

    /** The store is down: a fail-open room lets the request through all the same. */
    method PassOrRefuse(at: int) returns (response: Response)
      modifies this
      ensures var outcome := JoinDown(config, at);
              world == After(config, old(world), outcome.trace) && response == outcome.response
    {
      hide Next;
      AfterNone(config, world);
      if !config.failOpen {
        return Unavailable;
      }
      AfterOne(config, world, Happening(at, at, Outage));
      world := Next(config, world, Happening(at, at, Outage));
      return Through;
    }

    method EnqueueAndRedirect(req: Request, y: Weather) returns (response: Response)
      modifies this
      ensures var outcome := JoinTrace(config, old(world), req, y);
              world == After(config, old(world), outcome.trace) && response == outcome.response
    {
      hide Next, JoinReply;
      AfterNone(config, world);
      if Hit(JOIN_WINDOW, y.hits, y.joinAt).1 > config.joinLimit {
        return TooMany;
      }
      if y.joinDown {
        response := PassOrRefuse(y.joinAt);
        return;
      }
      var sid := if req.sid.Some? then req.sid.value else y.freshSid;
      ghost var first := Happening(y.joinAt, y.joinAt, Act.Store(JoinOp(config, sid, y.score, req.owner, y.joinAt)));
      AfterOne(config, world, first);
      var reply := Store(sid, y.score, req.owner, y.joinAt);
      if reply == -2 {
        AfterConcat(config, old(world), [first], y.meanwhile);
        Interfere(y.meanwhile);
        if y.rejoinDown {
          AfterConcat(config, old(world), [first] + y.meanwhile, JoinDown(config, y.rejoinAt).trace);
          response := PassOrRefuse(y.rejoinAt);
          return;
        }
        sid := y.otherSid;
        ghost var again := Happening(y.rejoinAt, y.rejoinAt, Act.Store(JoinOp(config, sid, y.otherScore, req.owner, y.rejoinAt)));
        AfterOne(config, world, again);
        AfterConcat(config, old(world), [first] + y.meanwhile, [again]);
        reply := Store(sid, y.otherScore, req.owner, y.rejoinAt);
      }
      if reply == -1 {
        return RoomClosed;
      }
      return Waiting(sid);
    }

    method Handle(req: Request, y: Weather) returns (response: Response)
      requires req.ticket.Some? ==> OwnClaim(config, world, req.ticket.value, req.owner, y)
      modifies this
      ensures var outcome := Decide(config, old(world), req, y);
              world == After(config, old(world), outcome.trace) && response == outcome.response
    {
      hide Next, Verify, RedeemTrace, JoinTrace;
      AfterNone(config, world);
      if req.allowlisted {
        return Through;
      }
      if req.pass.Some? {
        AfterOne(config, world, Happening(y.spendAt, y.spendAt, Show(req.pass.value, req.owner)));
        var ok := VerifyPass(req.pass.value, req.owner, y.spendAt);
        if ok {
          return Through;
        }
      }
      ghost var trace: seq<Happening> := [];
      if req.ticket.Some? {
        trace := RedeemTrace(config, world, req.ticket.value, req.owner, y).0;
        var redemption := Redeem(req.ticket.value, req.owner, y);
        if redemption.Granted? {
          return Through;
        }
        if redemption.Down? && config.failOpen {
          AfterOne(config, world, Happening(y.grantAt, y.grantAt, Outage));
          AfterConcat(config, old(world), trace, [Happening(y.grantAt, y.grantAt, Outage)]);
          world := Next(config, world, Happening(y.grantAt, y.grantAt, Outage));
          return Through;
        }
      }
      AfterConcat(config, old(world), trace, JoinTrace(config, world, req, y).trace);
      assert trace == [] ==> trace + JoinTrace(config, world, req, y).trace == JoinTrace(config, world, req, y).trace;
      response := EnqueueAndRedirect(req, y);
    }
  }

  // ----- what the decision guarantees

  /** The log ends with the entry of this client's session, by a token this request is entitled to. */
  ghost predicate EndsWithEntry(c: Config, log: seq<Fact>, req: Request) {
    && |log| > 0 && log[|log| - 1].Entered?
    && var token := log[|log| - 1].token;
    && (c.bind ==> token.client == Some(req.owner))
    && ((req.pass.Some? && req.pass.value == Presented(token, true)) ||
        (req.ticket.Some? && |log| > 1 && log[|log| - 2] == Redeemed(req.ticket.value.claims, token)))
  }

  lemma ShownEntry(c: Config, w: World, req: Request, at: int)
    requires req.pass.Some? && Verify(c, req.pass.value, req.owner, at, Pass) == Accepted
    ensures EndsWithEntry(c, Next(c, w, Happening(at, at, Show(req.pass.value, req.owner))).log, req)
  {
  }

  lemma GrantedEntry(c: Config, w: World, req: Request, y: Weather)
    requires req.ticket.Some? && OwnClaim(c, w, req.ticket.value, req.owner, y)
    requires RedeemTrace(c, w, req.ticket.value, req.owner, y).1.Granted?
    ensures EndsWithEntry(c, After(c, w, RedeemTrace(c, w, req.ticket.value, req.owner, y).0).log, req)
  {
    var token := req.ticket.value;
    var spend, grant := SpendOf(token, req.owner, y), GrantOf(token, req.owner, y);
    hide Scripts.Hold, Expire, NonceTtl;
    AfterOne(c, w, spend);
    AfterConcat(c, w, [spend], y.between);
    var w1 := Next(c, w, spend);
    assert token.claims in w1.pending;
    PendingThroughout(c, w1, y.between, token.claims);
    var w2 := After(c, w, [spend] + y.between);
    AfterOne(c, w2, grant);
    AfterConcat(c, w, [spend] + y.between, [grant]);
  }

  /** A fail-closed gate lets a request through that is not allowlisted only with an entry of its
    own in the log. */
  lemma ThroughIsLogged(c: Config, w: World, req: Request, y: Weather)
    requires !c.failOpen && !req.allowlisted
    requires req.ticket.Some? ==> OwnClaim(c, w, req.ticket.value, req.owner, y)
    requires Decide(c, w, req, y).response == Through
    ensures EndsWithEntry(c, After(c, w, Decide(c, w, req, y).trace).log, req)
  {
    hide Next, RedeemTrace, EndsWithEntry;
    if req.pass.Some? && Verify(c, req.pass.value, req.owner, y.spendAt, Pass) == Accepted {
      ShownEntry(c, w, req, y.spendAt);
      AfterOne(c, w, Happening(y.spendAt, y.spendAt, Show(req.pass.value, req.owner)));
    } else {
      GrantedEntry(c, w, req, y);
    }
  }

  /** In a fail-closed room, whoever the gate lets through is allowlisted or was admitted: over the
    whole run so far there is a tick that returned the session, later a ticket minted for it in
    this room, later its redemption for the pass this request entered with. */
  lemma OnlyTheAdmittedEnter(c: Config, before: seq<Happening>, req: Request, y: Weather)
    requires !c.failOpen && !req.allowlisted
    requires req.ticket.Some? ==> OwnClaim(c, After(c, EMPTY_WORLD, before), req.ticket.value, req.owner, y)
    requires var w := After(c, EMPTY_WORLD, before);
             Decide(c, w, req, y).response == Through
             && Unforgeable(c, EMPTY_WORLD, before + Decide(c, w, req, y).trace)
    ensures var log := After(c, EMPTY_WORLD, before + Decide(c, After(c, EMPTY_WORLD, before), req, y).trace).log;
            && EndsWithEntry(c, log, req)
            && TracesBack(c, log, |log| - 1)
  {
    var w := After(c, EMPTY_WORLD, before);
    var trace := Decide(c, w, req, y).trace;
    AfterConcat(c, EMPTY_WORLD, before, trace);
    ThroughIsLogged(c, w, req, y);
    var log := After(c, EMPTY_WORLD, before + trace).log;
    hide Decide, After, Unforgeable, TracesBack;
    NoEntryWithoutAdmission(c, before + trace, |log| - 1);
  }
}
