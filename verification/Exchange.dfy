/** Tickets and passes on top of the room: minted, spent once, swapped for a pass, shown.

  Signatures are abstract: a presented token is its claims and whether its signature is genuine,
  and a genuine signature is one that was issued under the key (`Unforgeable`). Rooms may share
  the key, so tokens of other rooms count as issued too. */
module Exchange {
  import opened Types
  import opened ZSet
  import opened Scripts
  import opened Runs
  import opened Invariants
  import opened Fairness

  datatype Purpose = Ticket | Pass

  /** A signed payload; `iat` and `exp` in whole seconds, `client` absent in unbound tokens. */
  datatype Claims = Claims(
    sid: Sid, room: string, client: Option<Owner>, iat: int, exp: int, nonce: Nonce, purpose: Purpose)

  datatype Presented = Presented(claims: Claims, genuine: bool)

  /** The settings of a room; times to live in seconds, joins per minute and address. */
  datatype Config = Config(
    name: string, limits: Limits, tokenTtl: int, queuedTtl: int, admittedTtl: int, joinLimit: int,
    bind: bool, failOpen: bool)

  datatype Verdict = Accepted | Forged | WrongPurpose | Stale | WrongClient | WrongRoom

  // ----- the signer

  function Issue(c: Config, sid: Sid, owner: Owner, now: int, ttl: int, nonce: Nonce, purpose: Purpose): Claims {
    Claims(sid, c.name, if c.bind then Some(owner) else None, Seconds(now), Seconds(now) + ttl, nonce, purpose)
  }

  /** The checks of `verify` and of the room, in their order. */
  function Verify(c: Config, token: Presented, owner: Owner, now: int, purpose: Purpose): Verdict {
    if !token.genuine then Forged
    else if token.claims.purpose != purpose then WrongPurpose
    else if now > token.claims.exp * 1000 then Stale
    else if c.bind && token.claims.client != Some(owner) then WrongClient
    else if token.claims.room != c.name then WrongRoom
    else Accepted
  }

  /** Milliseconds the token has left, and how long its nonce is remembered. */
  function TimeLeft(claims: Claims, now: int): int { claims.exp * 1000 - now }

  function NonceTtl(claims: Claims, now: int): int { TimeLeft(claims, now) / 1000 + 1 }

  // ----- the world: a room, the tokens around it and the log of what happened

  datatype Fact =
    | Admission(sid: Sid)
    | Minted(ticket: Claims)
    | Redeemed(ticket: Claims, pass: Claims)
    | SlotFreed(sid: Sid)
    | Entered(sid: Sid, token: Claims)
    | OpenEntry
    | OpenTicket(ticket: Claims)

  datatype World = World(
    room: Room,
    issued: set<Claims>,        // every token signed under the key
    pending: multiset<Claims>,  // tickets whose nonce a worker has claimed, not yet swapped
    log: seq<Fact>)

  const EMPTY_WORLD := World(EMPTY_ROOM, {}, multiset{}, [])

  datatype Act =
    | Store(op: Op)
    | Mint(sid: Sid, nonce: Nonce)
    | Spend(token: Presented, owner: Owner)
    | Grant(ticket: Claims, owner: Owner, nonce: Nonce)
    | Show(token: Presented, owner: Owner)
    | Foreign(claims: Claims)
    | Outage
    | MintOpen(sid: Sid, caller: Option<Owner>, nonce: Nonce)

  /** One atomic step: `clock` is the server's time, `now` the worker's. */
  datatype Happening = Happening(clock: int, now: int, act: Act)

  function Facts(out: seq<Sid>): seq<Fact> {
    seq(|out|, i requires 0 <= i < |out| => Admission(out[i]))
  }

  /** A step of the store: ticks log whom they admit, releases that free a slot are logged. */
  function StoreStep(c: Config, w: World, clock: int, op: Op): World {
    var news := if op.Release? && op.sid in w.room.admitted then [SlotFreed(op.sid)]
                else Facts(Output(c.limits, w.room, clock, op));
    w.(room := Apply(c.limits, w.room, clock, op), log := w.log + news)
  }

  /** The second half of `try_admit`: the hash is read and, if it says so, a ticket is signed. */
  function MintStep(c: Config, w: World, now: int, sid: Sid, nonce: Nonce): World {
    if sid in w.room.sessions && w.room.sessions[sid].status == Admitted then
      var ticket := Issue(c, sid, w.room.sessions[sid].owner, now, c.tokenTtl, nonce, Ticket);
      w.(issued := w.issued + {ticket}, log := w.log + [Minted(ticket)])
    else w
  }

  /** The ticket of a fail-open room while the store is down. Bound to nobody, when the caller is
    not known, it verifies for nobody. */
  function OpenClaims(c: Config, now: int, sid: Sid, owner: Option<Owner>, nonce: Nonce): Claims {
    Claims(sid, c.name, if c.bind then owner else None, Seconds(now), Seconds(now) + c.tokenTtl, nonce, Ticket)
  }

  function MintOpenStep(c: Config, w: World, now: int, sid: Sid, owner: Option<Owner>, nonce: Nonce): World {
    if c.failOpen then
      var ticket := OpenClaims(c, now, sid, owner, nonce);
      w.(issued := w.issued + {ticket}, log := w.log + [OpenTicket(ticket)])
    else w
  }

  /** The first half of `redeem`: the ticket is verified and its nonce claimed. */
  function SpendStep(c: Config, w: World, clock: int, now: int, token: Presented, owner: Owner): World {
    if Verify(c, token, owner, now, Ticket) != Accepted || TimeLeft(token.claims, now) <= 0 then w
    else
      var (r, ok) := Scripts.Claim(w.room, clock, token.claims.nonce, NonceTtl(token.claims, now));
      if ok then w.(room := r, pending := w.pending + multiset{token.claims}) else w
  }

  /** The second half: the slot is held and, if that changed its deadline, a pass is signed. */
  function GrantStep(c: Config, w: World, clock: int, now: int, ticket: Claims, owner: Owner, nonce: Nonce): World {
    if ticket !in w.pending then w
    else
      var (r, ok) := Scripts.Hold(w.room, clock, ticket.sid, now, c.admittedTtl);
      var w := w.(room := r, pending := w.pending - multiset{ticket});
      var pass := Issue(c, ticket.sid, owner, now, c.admittedTtl, nonce, Pass);
      if ok then w.(issued := w.issued + {pass}, log := w.log + [Redeemed(ticket, pass), Entered(ticket.sid, pass)]) else w
  }

  /** Keys past their expiry are gone before the step. */
  function Tidy(w: World, clock: int): World {
    w.(room := Expire(w.room, clock))
  }

  function Next(c: Config, w: World, h: Happening): World {
    Do(c, Tidy(w, h.clock), h)
  }

  function Do(c: Config, w: World, h: Happening): World {
    match h.act
    case Store(op) => StoreStep(c, w, h.clock, op)
    case Mint(sid, nonce) => MintStep(c, w, h.now, sid, nonce)
    case Spend(token, owner) => SpendStep(c, w, h.clock, h.now, token, owner)
    case Grant(ticket, owner, nonce) => GrantStep(c, w, h.clock, h.now, ticket, owner, nonce)
    case Show(token, owner) =>
      if Verify(c, token, owner, h.now, Pass) == Accepted then
        w.(log := w.log + [Entered(token.claims.sid, token.claims)])
      else w
    case Foreign(claims) => if claims.room != c.name then w.(issued := w.issued + {claims}) else w
    case Outage => if c.failOpen then w.(log := w.log + [OpenEntry]) else w
    case MintOpen(sid, owner, nonce) => MintOpenStep(c, w, h.now, sid, owner, nonce)
  }

  function After(c: Config, w: World, hs: seq<Happening>): World
    decreases hs
  {
    if hs == [] then w else After(c, Next(c, w, hs[0]), hs[1..])
  }

  /** Nobody presents a genuine token that was not issued. */
  ghost predicate Unforgeable(c: Config, w: World, hs: seq<Happening>)
    decreases hs
  {
    hs == [] || (Honest(w, hs[0].act) && Unforgeable(c, Next(c, w, hs[0]), hs[1..]))
  }

  ghost predicate Honest(w: World, act: Act) {
    (act.Spend? || act.Show?) && act.token.genuine ==> act.token.claims in w.issued
  }

  lemma {:induction false} AfterConcat(c: Config, w: World, a: seq<Happening>, b: seq<Happening>)
    ensures After(c, w, a + b) == After(c, After(c, w, a), b)
    ensures Unforgeable(c, w, a + b) <==> Unforgeable(c, w, a) && Unforgeable(c, After(c, w, a), b)
    decreases a
  {
    hide Next, Honest;
    if a == [] {
      assert a + b == b;
    } else {
      assert (a + b)[1..] == a[1..] + b;
      AfterConcat(c, Next(c, w, a[0]), a[1..], b);
    }
  }

  lemma AfterOne(c: Config, w: World, h: Happening)
    ensures After(c, w, [h]) == Next(c, w, h)
  {
  }

  lemma AfterNone(c: Config, w: World)
    ensures After(c, w, []) == w
  {
  }

  // ----- no entry without admission

  ghost predicate Earlier(log: seq<Fact>, k: nat, f: Fact) {
    exists i :: 0 <= i < k && i < |log| && log[i] == f
  }

  /** What each entry of the log rests on: entries on a redemption, redemptions on a ticket,
    tickets on an admission, all of the same session. */
  ghost predicate Grounded(c: Config, log: seq<Fact>, k: nat)
    requires k < |log|
  {
    match log[k]
    case Minted(t) => t.room == c.name && t.purpose == Ticket && Earlier(log, k, Admission(t.sid))
    case Redeemed(t, p) => t.sid == p.sid && p.room == c.name && p.purpose == Pass && Earlier(log, k, Minted(t))
    case Entered(sid, p) => p.sid == sid && exists t :: Earlier(log, k, Redeemed(t, p))
    case OpenEntry => c.failOpen
    case OpenTicket(_) => c.failOpen
    case _ => true
  }

  ghost predicate Traced(c: Config, w: World) {
    && Inv(c.limits, w.room)
    && (forall s :: s in w.room.admitted ==> Earlier(w.log, |w.log|, Admission(s)))
    && (forall t :: t in w.issued && t.room == c.name && t.purpose == Ticket ==> Earlier(w.log, |w.log|, Minted(t)))
    && (forall t :: t in w.pending ==> Earlier(w.log, |w.log|, Minted(t)))
    && (forall p :: p in w.issued && p.room == c.name && p.purpose == Pass ==>
          exists t :: Earlier(w.log, |w.log|, Redeemed(t, p)))
    && (forall k :: 0 <= k < |w.log| ==> Grounded(c, w.log, k))
  }

  lemma EarlierStays(log: seq<Fact>, more: seq<Fact>, k: nat, f: Fact)
    requires Earlier(log, k, f)
    ensures Earlier(log + more, k, f)
    ensures Earlier(log + more, |log|, f)
    ensures Earlier(log + more, |log + more|, f)
  {
    var i :| 0 <= i < k && i < |log| && log[i] == f;
    assert (log + more)[i] == f;
  }

  lemma GroundedStays(c: Config, log: seq<Fact>, more: seq<Fact>, k: nat)
    requires k < |log| && Grounded(c, log, k)
    ensures Grounded(c, log + more, k)
  {
    assert (log + more)[k] == log[k];
    match log[k]
    case Minted(t) => EarlierStays(log, more, k, Admission(t.sid));
    case Redeemed(t, p) => EarlierStays(log, more, k, Minted(t));
    case Entered(sid, p) =>
      var t :| Earlier(log, k, Redeemed(t, p));
      EarlierStays(log, more, k, Redeemed(t, p));
    case _ =>
  }

  /** The parts of `Traced` that only speak of the log, kept when the log grows by grounded facts. */
  lemma LogGrows(c: Config, w: World, more: seq<Fact>)
    requires Traced(c, w)
    requires forall k :: |w.log| <= k < |w.log + more| ==> Grounded(c, w.log + more, k)
    ensures Traced(c, w.(log := w.log + more))
  {
    hide Inv;
    var log := w.log + more;
    forall s | s in w.room.admitted ensures Earlier(log, |log|, Admission(s)) {
      EarlierStays(w.log, more, |w.log|, Admission(s));
    }
    forall t | Earlier(w.log, |w.log|, Minted(t)) ensures Earlier(log, |log|, Minted(t)) {
      EarlierStays(w.log, more, |w.log|, Minted(t));
    }
    forall p | p in w.issued && p.room == c.name && p.purpose == Pass
      ensures exists t :: Earlier(log, |log|, Redeemed(t, p))
    {
      var t :| Earlier(w.log, |w.log|, Redeemed(t, p));
      EarlierStays(w.log, more, |w.log|, Redeemed(t, p));
    }
    forall k | 0 <= k < |log| ensures Grounded(c, log, k) {
      if k < |w.log| {
        GroundedStays(c, w.log, more, k);
      }
    }
  }

  /** Only a tick that returns a session puts it in the admitted set. */
  lemma SlotsComeFromTicks(l: Limits, r: Room, clock: int, op: Op, s: Sid)
    requires Inv(l, r) && s in Apply(l, r, clock, op).admitted && s !in r.admitted
    ensures s in Output(l, r, clock, op)
  {
    hide Inv, Sids, Place, Scripts.Tick;
    if op.Tick? {
      TickConserves(l, r, clock, op.maxN, op.now);
    }
  }

  lemma FactsAre(out: seq<Sid>, log: seq<Fact>, s: Sid)
    requires s in out
    ensures Earlier(log + Facts(out), |log + Facts(out)|, Admission(s))
  {
    var i :| 0 <= i < |out| && out[i] == s;
    assert (log + Facts(out))[|log| + i] == Admission(s);
  }

  lemma RoomMoves(c: Config, w: World, r: Room)
    requires Traced(c, w) && Inv(c.limits, r)
    requires forall s :: s in r.admitted ==> s in w.room.admitted || Earlier(w.log, |w.log|, Admission(s))
    ensures Traced(c, w.(room := r))
  {
    hide Inv, Grounded;
  }

  /** Admissions and freed slots rest on nothing earlier in the log. */
  lemma NewsGrounded(c: Config, log: seq<Fact>, out: seq<Sid>, freed: Sid)
    ensures forall k :: |log| <= k < |log + Facts(out)| ==> Grounded(c, log + Facts(out), k)
    ensures Grounded(c, log + [SlotFreed(freed)], |log|)
  {
  }

  lemma StoreTraced(c: Config, w: World, clock: int, op: Op)
    requires Traced(c, w)
    ensures Traced(c, StoreStep(c, w, clock, op))
  {
    var r', out := Apply(c.limits, w.room, clock, op), Output(c.limits, w.room, clock, op);
    var more := if op.Release? && op.sid in w.room.admitted then [SlotFreed(op.sid)] else Facts(out);
    assert Inv(c.limits, r') by {
      hide Grounded, Apply;
      ApplyInv(c.limits, w.room, clock, op);
    }
    NoOutput(c.limits, w.room, clock, op);
    NewsGrounded(c, w.log, out, if op.Release? then op.sid else 0);
    hide Inv, Apply, Output, Grounded, Facts, Traced;
    LogGrows(c, w, more);
    forall s | s in r'.admitted ensures s in w.room.admitted || Earlier(w.log + more, |w.log + more|, Admission(s)) {
      if s !in w.room.admitted {
        TracedInv(c, w);
        SlotsComeFromTicks(c.limits, w.room, clock, op, s);
        FactsAre(out, w.log, s);
      }
    }
    RoomMoves(c, w.(log := w.log + more), r');
  }

  lemma TracedInv(c: Config, w: World)
    requires Traced(c, w)
    ensures Inv(c.limits, w.room)
  {
  }

  lemma TidyTraced(c: Config, w: World, clock: int)
    requires Traced(c, w)
    ensures Traced(c, Tidy(w, clock))
  {
    ExpireInv(c.limits, w.room, clock);
    hide Inv, Grounded;
    assert Expire(w.room, clock).admitted == w.room.admitted;
    RoomMoves(c, w, Expire(w.room, clock));
  }

  lemma NoOutput(l: Limits, r: Room, clock: int, op: Op)
    ensures !op.Tick? ==> Output(l, r, clock, op) == []
  {
  }

  lemma MintTraced(c: Config, w: World, now: int, sid: Sid, nonce: Nonce)
    requires Traced(c, w)
    ensures Traced(c, MintStep(c, w, now, sid, nonce))
  {
    var m := w.room.sessions;
    if sid in m && m[sid].status == Admitted {
      var ticket := Issue(c, sid, m[sid].owner, now, c.tokenTtl, nonce, Ticket);
      assert sid in w.room.admitted;
      hide Inv, Grounded;
      TicketGrounded(c, w.log, ticket);
      LogGrows(c, w, [Minted(ticket)]);
      assert (w.log + [Minted(ticket)])[|w.log|] == Minted(ticket);
      assert Earlier(w.log + [Minted(ticket)], |w.log| + 1, Minted(ticket));
    }
  }

  lemma TicketGrounded(c: Config, log: seq<Fact>, t: Claims)
    requires t.room == c.name && t.purpose == Ticket && Earlier(log, |log|, Admission(t.sid))
    ensures Grounded(c, log + [Minted(t)], |log|)
  {
    EarlierStays(log, [Minted(t)], |log|, Admission(t.sid));
  }

  lemma SpendTraced(c: Config, w: World, clock: int, now: int, token: Presented, owner: Owner)
    requires Traced(c, w) && Honest(w, Spend(token, owner))
    ensures Traced(c, SpendStep(c, w, clock, now, token, owner))
  {
    var r := Scripts.Claim(w.room, clock, token.claims.nonce, NonceTtl(token.claims, now)).0;
    ClaimInv(c.limits, w.room, clock, token.claims.nonce, NonceTtl(token.claims, now));
    assert r.admitted == w.room.admitted;
    hide Inv, Grounded, Earlier;
    RoomMoves(c, w, r);
  }

  lemma GrantTraced(c: Config, w: World, clock: int, now: int, ticket: Claims, owner: Owner, nonce: Nonce)
    requires Traced(c, w)
    ensures Traced(c, GrantStep(c, w, clock, now, ticket, owner, nonce))
  {
    if ticket in w.pending {
      var (r, ok) := Scripts.Hold(w.room, clock, ticket.sid, now, c.admittedTtl);
      var w1 := w.(room := r, pending := w.pending - multiset{ticket});
      HeldTraced(c, w, clock, now, ticket);
      if ok {
        var pass := Issue(c, ticket.sid, owner, now, c.admittedTtl, nonce, Pass);
        MintedBefore(c, w, ticket);
        hide Traced, Scripts.Hold;
        PassTraced(c, w1, ticket, pass);
      }
    }
  }

  lemma MintedBefore(c: Config, w: World, ticket: Claims)
    requires Traced(c, w) && ticket in w.pending
    ensures Earlier(w.log, |w.log|, Minted(ticket))
  {
  }

  lemma HeldTraced(c: Config, w: World, clock: int, now: int, ticket: Claims)
    requires Traced(c, w)
    ensures var r := Scripts.Hold(w.room, clock, ticket.sid, now, c.admittedTtl).0;
            Traced(c, w.(room := r, pending := w.pending - multiset{ticket}))
  {
    HoldInv(c.limits, w.room, clock, ticket.sid, now, c.admittedTtl);
    var r := Scripts.Hold(w.room, clock, ticket.sid, now, c.admittedTtl).0;
    assert r.admitted.Keys == w.room.admitted.Keys;
    hide Inv, Grounded, Earlier, Scripts.Hold;
  }

  lemma PassTraced(c: Config, w: World, t: Claims, p: Claims)
    requires Traced(c, w) && Earlier(w.log, |w.log|, Minted(t))
    requires t.sid == p.sid && p.room == c.name && p.purpose == Pass
    ensures Traced(c, w.(issued := w.issued + {p}, log := w.log + [Redeemed(t, p), Entered(t.sid, p)]))
  {
    var more := [Redeemed(t, p), Entered(t.sid, p)];
    hide Inv, Grounded;
    PassGrounded(c, w.log, t, p);
    LogGrows(c, w, more);
    assert (w.log + more)[|w.log|] == Redeemed(t, p);
    assert Earlier(w.log + more, |w.log + more|, Redeemed(t, p));
  }

  lemma PassGrounded(c: Config, log: seq<Fact>, t: Claims, p: Claims)
    requires t.sid == p.sid && p.room == c.name && p.purpose == Pass && Earlier(log, |log|, Minted(t))
    ensures var more := [Redeemed(t, p), Entered(t.sid, p)];
            Grounded(c, log + more, |log|) && Grounded(c, log + more, |log| + 1)
  {
    var more := [Redeemed(t, p), Entered(t.sid, p)];
    EarlierStays(log, more, |log|, Minted(t));
    assert (log + more)[|log|] == Redeemed(t, p);
    assert Earlier(log + more, |log| + 1, Redeemed(t, p));
  }

  lemma ShowTraced(c: Config, w: World, h: Happening)
    requires Traced(c, w) && h.act.Show? && Honest(w, h.act)
    ensures Traced(c, Do(c, w, h))
  {
    var p := h.act.token.claims;
    if Verify(c, h.act.token, h.act.owner, h.now, Pass) == Accepted {
      var t :| Earlier(w.log, |w.log|, Redeemed(t, p));
      EarlierStays(w.log, [Entered(p.sid, p)], |w.log|, Redeemed(t, p));
      LogGrows(c, w, [Entered(p.sid, p)]);
    }
  }

  lemma NextTraced(c: Config, w: World, h: Happening)
    requires !c.failOpen && Traced(c, w) && Honest(w, h.act)
    ensures Traced(c, Next(c, w, h))
  {
    hide Traced, Do, Expire;
    TidyTraced(c, w, h.clock);
    DoTraced(c, Tidy(w, h.clock), h);
  }

  lemma DoTraced(c: Config, w: World, h: Happening)
    requires !c.failOpen && Traced(c, w) && Honest(w, h.act)
    ensures Traced(c, Do(c, w, h))
  {
    hide Traced, StoreStep, MintStep, SpendStep, GrantStep;
    match h.act
    case Store(op) => StoreTraced(c, w, h.clock, op);
    case Mint(sid, nonce) => MintTraced(c, w, h.now, sid, nonce);
    case Spend(token, owner) => SpendTraced(c, w, h.clock, h.now, token, owner);
    case Grant(ticket, owner, nonce) => GrantTraced(c, w, h.clock, h.now, ticket, owner, nonce);
    case Show(_, _) => ShowTraced(c, w, h);
    case Foreign(claims) =>
      if claims.room != c.name {
        ForeignTraced(c, w, claims);
      }
    case Outage =>
    case MintOpen(_, _, _) =>
  }

  lemma ForeignTraced(c: Config, w: World, claims: Claims)
    requires Traced(c, w) && claims.room != c.name
    ensures Traced(c, w.(issued := w.issued + {claims}))
  {
    hide Inv, Earlier, Grounded;
  }

  lemma {:induction false} AfterTraced(c: Config, w: World, hs: seq<Happening>)
    requires !c.failOpen && Traced(c, w) && Unforgeable(c, w, hs)
    ensures Traced(c, After(c, w, hs))
    decreases hs
  {
    if hs != [] {
      hide Traced, Next, Honest;
      NextTraced(c, w, hs[0]);
      AfterTraced(c, Next(c, w, hs[0]), hs[1..]);
    }
  }

  /** Before entry `m` comes the redemption of its pass, before that the minting, in this room, of
    the ticket redeemed, and before that the tick that returned the session. */
  ghost predicate TracesBack(c: Config, log: seq<Fact>, m: nat)
    requires m < |log| && log[m].Entered?
  {
    exists i, j, k, t :: 0 <= i < j < k < m
      && log[i] == Admission(log[m].sid)
      && log[j] == Minted(t) && t.sid == log[m].sid && t.room == c.name
      && log[k] == Redeemed(t, log[m].token)
  }

  /** No entry without admission: in a fail-closed room every entry in the log, by a fresh pass or
    a shown one, comes after the redemption of a ticket that was minted, in this room and for this
    session, after a tick returned the session. */
  lemma NoEntryWithoutAdmission(c: Config, hs: seq<Happening>, m: nat)
    requires !c.failOpen && Unforgeable(c, EMPTY_WORLD, hs)
    requires m < |After(c, EMPTY_WORLD, hs).log|
    ensures var log := After(c, EMPTY_WORLD, hs).log;
            !log[m].OpenEntry? && !log[m].OpenTicket? && (log[m].Entered? ==> TracesBack(c, log, m))
  {
    EmptyInv(c.limits);
    AfterTraced(c, EMPTY_WORLD, hs);
    hide Inv, After, Grounded;
    EntryChain(c, After(c, EMPTY_WORLD, hs).log, m);
  }

  /** Following a log of grounded facts back from an entry. */
  lemma EntryChain(c: Config, log: seq<Fact>, m: nat)
    requires m < |log| && forall k :: 0 <= k < |log| ==> Grounded(c, log, k)
    ensures log[m].OpenEntry? || log[m].OpenTicket? ==> c.failOpen
    ensures log[m].Entered? ==> TracesBack(c, log, m)
  {
    assert Grounded(c, log, m);
    if log[m].Entered? {
      var t, k := RedemptionBefore(c, log, m);
      var j := MintingBefore(c, log, k);
      var i := AdmissionBefore(c, log, j);
      hide Grounded;
      assert log[j] == Minted(t) && log[k] == Redeemed(t, log[m].token);
    }
  }

  lemma RedemptionBefore(c: Config, log: seq<Fact>, m: nat) returns (t: Claims, k: nat)
    requires m < |log| && log[m].Entered? && Grounded(c, log, m)
    ensures k < m && log[k] == Redeemed(t, log[m].token) && log[m].token.sid == log[m].sid
  {
    t :| Earlier(log, m, Redeemed(t, log[m].token));
    k :| 0 <= k < m && log[k] == Redeemed(t, log[m].token);
  }

  lemma MintingBefore(c: Config, log: seq<Fact>, k: nat) returns (j: nat)
    requires k < |log| && log[k].Redeemed? && Grounded(c, log, k)
    ensures j < k && log[j] == Minted(log[k].ticket) && log[k].ticket.sid == log[k].pass.sid
  {
    j :| 0 <= j < k && log[j] == Minted(log[k].ticket);
  }

  lemma AdmissionBefore(c: Config, log: seq<Fact>, j: nat) returns (i: nat)
    requires j < |log| && log[j].Minted? && Grounded(c, log, j)
    ensures i < j && log[i] == Admission(log[j].ticket.sid) && log[j].ticket.room == c.name
  {
    i :| 0 <= i < j && log[i] == Admission(log[j].ticket.sid);
  }

  lemma NextInv(c: Config, w: World, h: Happening)
    requires Inv(c.limits, w.room)
    ensures Inv(c.limits, Next(c, w, h).room)
  {
    hide Inv, Expire, Apply, Scripts.Claim, Scripts.Hold, Issue, Verify;
    ExpireInv(c.limits, w.room, h.clock);
    var x := Tidy(w, h.clock).room;
    match h.act
    case Store(op) => ApplyInv(c.limits, x, h.clock, op);
    case Spend(token, owner) => ClaimInv(c.limits, x, h.clock, token.claims.nonce, NonceTtl(token.claims, h.now));
    case Grant(t, owner, nonce) => HoldInv(c.limits, x, h.clock, t.sid, h.now, c.admittedTtl);
    case _ =>
  }

  lemma {:induction false} AfterInv(c: Config, w: World, hs: seq<Happening>)
    requires Inv(c.limits, w.room)
    ensures Inv(c.limits, After(c, w, hs).room)
    decreases hs
  {
    if hs != [] {
      hide Inv, Next;
      NextInv(c, w, hs[0]);
      AfterInv(c, Next(c, w, hs[0]), hs[1..]);
    }
  }

  /** A ticket is only ever minted for a session that holds a slot when its hash is read, however
    many steps went by since the tick, with expiries, abandons and flushes among them. */
  lemma TicketsAreForSlots(c: Config, hs: seq<Happening>, h: Happening)
    requires h.act.Mint?
    ensures var w, w' := After(c, EMPTY_WORLD, hs), Next(c, After(c, EMPTY_WORLD, hs), h);
            w' != Tidy(w, h.clock) ==> h.act.sid in w'.room.admitted && |w'.log| == |w.log| + 1 && w'.log[|w.log|].Minted?
  {
    EmptyInv(c.limits);
    AfterInv(c, EMPTY_WORLD, hs);
    hide After;
    ExpireInv(c.limits, After(c, EMPTY_WORLD, hs).room, h.clock);
  }
}
