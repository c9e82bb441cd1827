/** Setting the stage for runs of one small room: its steps, and what each does to the world. */
module Staging {
  import opened Types
  import opened ZSet
  import opened Scripts
  import opened Runs
  import opened Fairness
  import opened Slots
  import opened Exchange
  import Passes

  const VISITOR := Owner("192.0.2.1", "browser")

  /** Two slots and no rate; tickets for 300 seconds, waiters for 1800, passes for 900. */
  function Shop(grace: int): Config {
    Config("shop", Limits(2, 0.0, 0, grace), 300, 1800, 900, 120, true, false)
  }

  function TicketOf(sid: Sid, at: int, nonce: Nonce): Claims {
    Issue(Shop(0), sid, VISITOR, at, 300, nonce, Purpose.Ticket)
  }

  function PassOf(sid: Sid, at: int, nonce: Nonce): Claims {
    Issue(Shop(0), sid, VISITOR, at, 900, nonce, Purpose.Pass)
  }

  // ----- steps

  function Join(at: int, sid: Sid): Happening {
    Happening(at, at, Act.Store(Op.Enqueue(sid, at as real, 1800, Seconds(at), VISITOR, true)))
  }

  function TickAt(at: int): Happening {
    Happening(at, at, Act.Store(Op.Tick(1000, at)))
  }

  function Abandon(at: int, sid: Sid): Happening {
    Happening(at, at, Act.Store(Op.Remove(sid)))
  }

  function MintAt(clock: int, now: int, sid: Sid, nonce: Nonce): Happening {
    Happening(clock, now, Mint(sid, nonce))
  }

  function SpendAt(clock: int, now: int, t: Claims): Happening {
    Happening(clock, now, Spend(Presented(t, true), VISITOR))
  }

  function GrantAt(at: int, t: Claims, nonce: Nonce): Happening {
    Happening(at, at, Grant(t, VISITOR, nonce))
  }

  /** The run leads to the world `w` at `at`: on one clock, with genuine tokens only, without raw
    holds and flushes. */
  ghost predicate Leads(c: Config, hs: seq<Happening>, at: int, w: World) {
    && Passes.AllOrdinary(0, hs) && Passes.Latest(0, hs) == at
    && Unforgeable(c, EMPTY_WORLD, hs) && After(c, EMPTY_WORLD, hs) == w
  }

  lemma {:induction false} OnOneClock(hs: seq<Happening>, h: Happening, from: int)
    requires Passes.Synchronous(from, hs) && Passes.Latest(from, hs) <= h.clock && Passes.Punctual(h)
    ensures Passes.Synchronous(from, hs + [h])
    decreases hs
  {
    if hs != [] {
      assert (hs + [h])[1..] == hs[1..] + [h];
      OnOneClock(hs[1..], h, hs[0].clock);
    }
  }

  lemma NothingYet(c: Config)
    ensures Leads(c, [], 0, EMPTY_WORLD)
  {
  }

  /** One more step of a run. */
  lemma Extend(c: Config, hs: seq<Happening>, at: int, w: World, h: Happening)
    requires Leads(c, hs, at, w) && at <= h.clock
    requires Passes.Punctual(h) && Passes.Ordinary(h) && Honest(w, h.act)
    ensures Leads(c, hs + [h], h.clock, Next(c, w, h))
  {
    OnOneClock(hs, h, 0);
    AfterConcat(c, EMPTY_WORLD, hs, [h]);
    AfterOne(c, w, h);
    assert Unforgeable(c, w, [h]);
    hide After, Unforgeable, Passes.Synchronous, Next, Honest;
  }

  /** No key of the room is past its time to live. */
  ghost predicate Quiet(r: Room, clock: int) {
    && r.bucket.None?
    && (forall s :: s in r.sessions ==> clock <= r.sessions[s].expireAt)
    && (forall n :: n in r.nonces ==> clock <= r.nonces[n])
  }

  lemma QuietStays(w: World, clock: int)
    requires Quiet(w.room, clock)
    ensures Tidy(w, clock) == w
  {
    assert LiveSessions(w.room.sessions, clock) == w.room.sessions;
    assert LiveNonces(w.room.nonces, clock) == w.room.nonces;
  }

  // ----- what each step does to a quiet room

  /** The slots after a tick that frees the lapsed ones and admits the whole queue. */
  ghost predicate SlotsAfter(l: Limits, r: Room, now: int, slots: map<Sid, int>) {
    && slots.Keys == (r.admitted.Keys - Lapsed(r.admitted, now)) + Sids(r.queue)
    && forall s :: s in slots ==> slots[s] == if s in Sids(r.queue) then now + l.grace else r.admitted[s]
  }

  function Ticked(r: Room, now: int, slots: map<Sid, int>): Room {
    r.(queue := [], seen := r.seen - Sids(r.queue), admitted := slots,
       sessions := Mark(Mark(r.sessions, Lapsed(r.admitted, now), Expired), Sids(r.queue), Admitted))
  }

  /** A room without a rate and with a slot for everybody in the queue. */
  ghost predicate Roomy(l: Limits, r: Room, now: int) {
    && l.rate == 0.0 && l.capacity > 0 && !r.closed
    && 0 < |r.queue| <= 1000 && Sids(r.queue) <= r.sessions.Keys
    && |r.queue| + |r.admitted - Lapsed(r.admitted, now)| <= l.capacity
  }

  lemma TickTakesAll(l: Limits, r: Room, now: int, slots: map<Sid, int>)
    requires Roomy(l, r, now) && SlotsAfter(l, r, now, slots)
    ensures Scripts.Tick(l, r, now, 1000, now) == (Ticked(r, now, slots), Present(r.queue, r.sessions))
  {
    PopsAll(l, r, now);
    hide Roomy, SlotsAfter, Popped, Scripts.Tick, Sids, Lapsed, Mark, Present;
    TickShape(l, r, now, 1000, now);
    TickIs(l, r, now, 1000, now);
    assert r.queue[..|r.queue|] == r.queue && r.queue[|r.queue|..] == [];
    SlotsAre(l, r, now, Sids(r.queue), Scripts.Tick(l, r, now, 1000, now).0.admitted, slots);
  }

  lemma PopsAll(l: Limits, r: Room, now: int)
    requires Roomy(l, r, now)
    ensures Popped(l, r, 1000, now) == |r.queue| && l.rate == 0.0
    ensures Sids(r.queue) <= r.sessions.Keys && Sids(r.queue) * r.sessions.Keys == Sids(r.queue)
  {
    hide Sids, Lapsed, Mark;
  }

  lemma SlotsAre(l: Limits, r: Room, now: int, all: set<Sid>, admitted: map<Sid, int>, slots: map<Sid, int>)
    requires admitted == (r.admitted - Lapsed(r.admitted, now)) + (map s | s in all * r.sessions.Keys :: now + l.grace)
    requires all == Sids(r.queue) && all <= r.sessions.Keys && SlotsAfter(l, r, now, slots)
    ensures admitted == slots
  {
    hide Sids, Lapsed;
    assert admitted.Keys == slots.Keys;
  }

  lemma NextTick(c: Config, w: World, at: int, slots: map<Sid, int>)
    requires Quiet(w.room, at) && Roomy(c.limits, w.room, at) && SlotsAfter(c.limits, w.room, at, slots)
    ensures Next(c, w, TickAt(at))
         == w.(room := Ticked(w.room, at, slots), log := w.log + Facts(Present(w.room.queue, w.room.sessions)))
  {
    QuietStays(w, at);
    hide Quiet, Roomy, SlotsAfter, Present, Ticked, Scripts.Tick, Facts, Tidy, Next;
    TickTakesAll(c.limits, w.room, at, slots);
    NextIsStore(c, w, at, Op.Tick(1000, at));
  }

  lemma NextIsStore(c: Config, w: World, at: int, op: Op)
    requires Tidy(w, at) == w && op.Tick?
    ensures Next(c, w, Happening(at, at, Act.Store(op)))
         == w.(room := Scripts.Tick(c.limits, w.room, at, op.maxN, op.now).0,
               log := w.log + Facts(Scripts.Tick(c.limits, w.room, at, op.maxN, op.now).1))
  {
    hide Scripts.Tick, Facts, Expire;
  }

  /** A step of the store. */
  lemma Storing(c: Config, hs: seq<Happening>, from: int, w: World, at: int, op: Op)
    requires Leads(c, hs, from, w) && from <= at && InTime(Event(at, op)) && !op.Flush? && !op.Hold?
    ensures Leads(c, hs + [Happening(at, at, Act.Store(op))], at, Next(c, w, Happening(at, at, Act.Store(op))))
  {
    hide Leads, Next;
    Extend(c, hs, from, w, Happening(at, at, Act.Store(op)));
  }

  /** A session in the admitted set, whose hash says so, asks for its ticket. */
  lemma Minting(grace: int, hs: seq<Happening>, from: int, w: World, clock: int, now: int, sid: Sid, nonce: Nonce)
    requires Leads(Shop(grace), hs, from, w) && from <= clock
    requires Quiet(w.room, clock) && sid in w.room.sessions
    requires w.room.sessions[sid].status == Admitted && w.room.sessions[sid].owner == VISITOR
    ensures var t := TicketOf(sid, now, nonce);
            Leads(Shop(grace), hs + [MintAt(clock, now, sid, nonce)], clock,
                  w.(issued := w.issued + {t}, log := w.log + [Minted(t)]))
  {
    QuietStays(w, clock);
    hide Leads, Quiet;
    Extend(Shop(grace), hs, from, w, MintAt(clock, now, sid, nonce));
  }

  /** A ticket in date whose nonce is not remembered is claimed. */
  lemma Spending(grace: int, hs: seq<Happening>, from: int, w: World, clock: int, now: int, t: Claims)
    requires Leads(Shop(grace), hs, from, w) && from <= clock
    requires Quiet(w.room, clock) && t in w.issued && t.nonce !in w.room.nonces && now < t.exp * 1000
    requires t.purpose == Purpose.Ticket && t.client == Some(VISITOR) && t.room == "shop"
    ensures Leads(Shop(grace), hs + [SpendAt(clock, now, t)], clock,
                  w.(room := w.room.(nonces := w.room.nonces[t.nonce := clock + NonceTtl(t, now) * 1000]),
                     pending := w.pending + multiset{t}))
  {
    QuietStays(w, clock);
    hide Leads, Quiet;
    Extend(Shop(grace), hs, from, w, SpendAt(clock, now, t));
  }

  function Held(r: Room, sid: Sid, at: int): Room
    requires sid in r.sessions
  {
    r.(admitted := r.admitted[sid := at + 900000],
       sessions := r.sessions[sid := r.sessions[sid].(expireAt := at + 900000)])
  }

  /** The holder of a slot with another deadline gets a pass. */
  lemma Granting(grace: int, hs: seq<Happening>, from: int, w: World, at: int, t: Claims, nonce: Nonce)
    requires Leads(Shop(grace), hs, from, w) && from <= at
    requires Quiet(w.room, at) && t in w.pending && t.sid in w.room.sessions
    requires t.sid in w.room.admitted && w.room.admitted[t.sid] != at + 900000
    ensures var p := PassOf(t.sid, at, nonce);
            Leads(Shop(grace), hs + [GrantAt(at, t, nonce)], at,
                  World(Held(w.room, t.sid, at), w.issued + {p}, w.pending - multiset{t},
                        w.log + [Redeemed(t, p), Entered(t.sid, p)]))
  {
    QuietStays(w, at);
    hide Leads, Quiet;
    Extend(Shop(grace), hs, from, w, GrantAt(at, t, nonce));
  }

  /** A session without a slot is refused; the time to live of its hash is reset all the same. */
  lemma Refusing(grace: int, hs: seq<Happening>, from: int, w: World, at: int, t: Claims, nonce: Nonce)
    requires Leads(Shop(grace), hs, from, w) && from <= at
    requires Quiet(w.room, at) && t in w.pending && t.sid in w.room.sessions && t.sid !in w.room.admitted
    ensures var m := w.room.sessions;
            Leads(Shop(grace), hs + [GrantAt(at, t, nonce)], at,
                  w.(room := w.room.(sessions := m[t.sid := m[t.sid].(expireAt := at + 900000)]),
                     pending := w.pending - multiset{t}))
  {
    QuietStays(w, at);
    hide Leads, Quiet;
    Extend(Shop(grace), hs, from, w, GrantAt(at, t, nonce));
  }

  lemma NoFacts(log: seq<Fact>)
    ensures log + Facts([]) == log
  {
  }

  /** A session that is new, or has neither place nor slot, joins behind everybody. */
  lemma Joining(grace: int, hs: seq<Happening>, from: int, w: World, at: int, sid: Sid)
    requires Leads(Shop(grace), hs, from, w) && from <= at && Quiet(w.room, at) && !w.room.closed
    requires sid !in Sids(w.room.queue)
    requires sid in w.room.sessions ==> w.room.sessions[sid].owner == VISITOR && sid !in w.room.admitted
    requires forall e :: e in w.room.queue ==> e.score < at as real
    ensures var r := w.room;
            Leads(Shop(grace), hs + [Join(at, sid)], at,
                  w.(room := r.(queue := r.queue + [Entry(sid, at as real)], seen := r.seen[sid := Seconds(at)],
                                sessions := r.sessions[sid := Meta(Queued, VISITOR, at + 1800000)])))
  {
    var r := w.room;
    hide Leads, Quiet, Insert, Sids, Place, Facts;
    QuietStays(w, at);
    FreshGoesLast(r.queue, Entry(sid, at as real));
    Storing(Shop(grace), hs, from, w, at, Join(at, sid).act.op);
    NoFacts(w.log);
    assert Next(Shop(grace), w, Join(at, sid))
        == w.(room := r.(queue := r.queue + [Entry(sid, at as real)], seen := r.seen[sid := Seconds(at)],
                         sessions := r.sessions[sid := Meta(Queued, VISITOR, at + 1800000)]));
  }

  /** A tick with a slot for everybody. */
  lemma Ticking(grace: int, hs: seq<Happening>, from: int, w: World, at: int, slots: map<Sid, int>)
    requires Leads(Shop(grace), hs, from, w) && from <= at && Quiet(w.room, at)
    requires Roomy(Shop(grace).limits, w.room, at) && SlotsAfter(Shop(grace).limits, w.room, at, slots)
    ensures Leads(Shop(grace), hs + [TickAt(at)], at,
                  w.(room := Ticked(w.room, at, slots), log := w.log + Facts(Present(w.room.queue, w.room.sessions))))
  {
    hide Leads, Next, Quiet, Roomy, SlotsAfter, Present, Facts, Ticked;
    NextTick(Shop(grace), w, at, slots);
    Storing(Shop(grace), hs, from, w, at, TickAt(at).act.op);
  }

  /** A tick that finds nobody waiting still frees the lapsed slots. */
  lemma Purging(grace: int, hs: seq<Happening>, from: int, w: World, at: int)
    requires Leads(Shop(grace), hs, from, w) && from <= at && Quiet(w.room, at) && w.room.queue == []
    ensures Leads(Shop(grace), hs + [TickAt(at)], at, w.(room := Purge(w.room, at)))
  {
    hide Leads, Quiet, Lapsed, Mark, Facts;
    QuietStays(w, at);
    NoFacts(w.log);
    Storing(Shop(grace), hs, from, w, at, TickAt(at).act.op);
  }

  /** A session leaves the queue or its hash behind. */
  lemma Abandoning(grace: int, hs: seq<Happening>, from: int, w: World, at: int, sid: Sid)
    requires Leads(Shop(grace), hs, from, w) && from <= at && Quiet(w.room, at)
    ensures var r := w.room;
            Leads(Shop(grace), hs + [Abandon(at, sid)], at,
                  w.(room := r.(queue := Without(r.queue, {sid}), seen := r.seen - {sid}, sessions := r.sessions - {sid})))
  {
    hide Leads, Quiet, Without, Sids, Facts;
    QuietStays(w, at);
    NoFacts(w.log);
    Storing(Shop(grace), hs, from, w, at, Abandon(at, sid).act.op);
  }

  function ToPass(at: int, sid: Sid, n: Nonce, m: Nonce): seq<Happening> {
    [MintAt(at, at, sid, n)] + [SpendAt(at, at, TicketOf(sid, at, n))] + [GrantAt(at, TicketOf(sid, at, n), m)]
  }

  /** An admitted session that nobody disturbs gets its ticket and its pass. */
  lemma Passing(grace: int, hs: seq<Happening>, from: int, w: World, at: int, sid: Sid, n: Nonce, m: Nonce)
    requires Leads(Shop(grace), hs, from, w) && from <= at && Quiet(w.room, at) && at % 1000 == 0
    requires sid in w.room.sessions && w.room.sessions[sid].status == Admitted && w.room.sessions[sid].owner == VISITOR
    requires sid in w.room.admitted && w.room.admitted[sid] != at + 900000 && n !in w.room.nonces
    ensures var t, p := TicketOf(sid, at, n), PassOf(sid, at, m);
            Leads(Shop(grace), hs + ToPass(at, sid, n, m), at,
                  World(Held(w.room, sid, at).(nonces := w.room.nonces[n := at + 301000]), w.issued + {t} + {p}, w.pending,
                        w.log + [Minted(t)] + [Redeemed(t, p), Entered(sid, p)]))
  {
    var t := TicketOf(sid, at, n);
    var w1 := w.(issued := w.issued + {t}, log := w.log + [Minted(t)]);
    var w2 := w1.(room := w.room.(nonces := w.room.nonces[n := at + 301000]), pending := w.pending + multiset{t});
    hide Leads;
    Minting(grace, hs, from, w, at, at, sid, n);
    Spending(grace, hs + [MintAt(at, at, sid, n)], at, w1, at, at, t);
    Granting(grace, hs + [MintAt(at, at, sid, n)] + [SpendAt(at, at, t)], at, w2, at, t, m);
    assert hs + [MintAt(at, at, sid, n)] + [SpendAt(at, at, t)] + [GrantAt(at, t, m)] == hs + ToPass(at, sid, n, m);
    assert w.pending + multiset{t} - multiset{t} == w.pending;
  }
}
