/** Runs of one small room that show where the promises of the other modules end: too many passes
  after a revived slot, a refusal although the slot is held, an active waiter that is dropped, and a
  ticket that buys two passes. */
module Scenarios {
  import opened Types
  import opened ZSet
  import opened Scripts
  import opened Runs
  import opened Fairness
  import opened Slots
  import opened Exchange
  import opened Staging
  import Waiter
  import SingleUse
  import Passes
  import Gate

  // ----- the opening: one session joins, is admitted and gets its ticket

  function Opening(): seq<Happening> {
    [Join(0, 1)] + [TickAt(1000)] + [MintAt(1000, 1000, 1, 11)]
  }

  function Opened(grace: int): World {
    World(Room([], map[], map[1 := 1000 + grace], map[1 := Meta(Admitted, VISITOR, 1800000)], None, false, map[]),
          {TicketOf(1, 1000, 11)}, multiset{}, [Admission(1), Minted(TicketOf(1, 1000, 11))])
  }

  lemma OpeningLeads(grace: int)
    ensures Leads(Shop(grace), Opening(), 1000, Opened(grace))
  {
    var w := Opened(grace).(issued := {}, log := [Admission(1)]);
    hide Leads, Next;
    FirstTwoLead(grace);
    Minting(grace, [Join(0, 1)] + [TickAt(1000)], 1000, w, 1000, 1000, 1, 11);
    assert {} + {TicketOf(1, 1000, 11)} == {TicketOf(1, 1000, 11)};
    assert [Admission(1)] + [Minted(TicketOf(1, 1000, 11))] == [Admission(1), Minted(TicketOf(1, 1000, 11))];
  }

  lemma FirstTwoLead(grace: int)
    ensures Leads(Shop(grace), [Join(0, 1)] + [TickAt(1000)], 1000, Opened(grace).(issued := {}, log := [Admission(1)]))
  {
    var c := Shop(grace);
    var w1 := Next(c, EMPTY_WORLD, Join(0, 1));
    hide Leads, Next, Opened;
    NothingYet(c);
    Storing(c, [], 0, EMPTY_WORLD, 0, Join(0, 1).act.op);
    assert [] + [Join(0, 1)] == [Join(0, 1)];
    Storing(c, [Join(0, 1)], 0, w1, 1000, TickAt(1000).act.op);
    FirstTwo(grace);
  }

  lemma FirstTwo(grace: int)
    ensures Next(Shop(grace), Next(Shop(grace), EMPTY_WORLD, Join(0, 1)), TickAt(1000))
         == Opened(grace).(issued := {}, log := [Admission(1)])
  {
    var c := Shop(grace);
    hide Scripts.Tick, Scripts.Enqueue;
    FirstJoin(c.limits, 0, 1, 0.0, 1800, 0, VISITOR, true);
    var w1 := Next(c, EMPTY_WORLD, Join(0, 1));
    assert w1.log == [] && w1.room == Step(c.limits, EMPTY_ROOM, Event(0, Join(0, 1).act.op));
    LoneWaiterIsAdmitted(c.limits, w1.room, 1000, 1000, 1000, 1, 0.0);
    assert Facts([1]) == [Admission(1)];
    assert [] + [Admission(1)] == [Admission(1)];
  }

  // ----- three passes for two slots

  /** The first session abandons its lapsed slot before anybody purges it, queues again, and spends
    its ticket while it queues. */
  function Revival(): seq<Happening> {
    Opening() + [Abandon(62000, 1)] + [Join(63000, 1)] + [SpendAt(64000, 64000, TicketOf(1, 1000, 11))]
    + [GrantAt(64000, TicketOf(1, 1000, 11), 12)]
  }

  function Revived(): World {
    var t, p := TicketOf(1, 1000, 11), PassOf(1, 64000, 12);
    World(Room([Entry(1, 63000.0)], map[1 := 63], map[1 := 964000], map[1 := Meta(Queued, VISITOR, 964000)], None, false,
               map[11 := 302000]),
          {t, p}, multiset{}, [Admission(1), Minted(t), Redeemed(t, p), Entered(1, p)])
  }

  lemma RejoinLeads()
    ensures Leads(Shop(60000), Opening() + [Abandon(62000, 1)] + [Join(63000, 1)], 63000,
                  Opened(60000).(room := Room([Entry(1, 63000.0)], map[1 := 63], map[1 := 61000],
                                              map[1 := Meta(Queued, VISITOR, 1863000)], None, false, map[])))
  {
    var w := Opened(60000);
    hide Leads, Opening;
    OpeningLeads(60000);
    Abandoning(60000, Opening(), 1000, w, 62000, 1);
    assert w.room.seen - {1} == map[] && w.room.sessions - {1} == map[];
    Joining(60000, Opening() + [Abandon(62000, 1)], 62000, w.(room := w.room.(sessions := map[])), 63000, 1);
    assert [] + [Entry(1, 63000.0)] == [Entry(1, 63000.0)];
  }

  lemma RevivalLeads()
    ensures Leads(Shop(60000), Revival(), 64000, Revived())
  {
    var t, p := TicketOf(1, 1000, 11), PassOf(1, 64000, 12);
    var hs := Opening() + [Abandon(62000, 1)] + [Join(63000, 1)];
    var w := Opened(60000).(room := Room([Entry(1, 63000.0)], map[1 := 63], map[1 := 61000],
                                         map[1 := Meta(Queued, VISITOR, 1863000)], None, false, map[]));
    hide Leads, Opening;
    RejoinLeads();
    Spending(60000, hs, 63000, w, 64000, 64000, t);
    var w' := w.(room := w.room.(nonces := map[11 := 302000]), pending := multiset{t});
    assert multiset{} + multiset{t} == multiset{t};
    Granting(60000, hs + [SpendAt(64000, 64000, t)], 64000, w', 64000, t, 12);
    assert multiset{t} - multiset{t} == multiset{};
    assert w'.log + [Redeemed(t, p), Entered(1, p)] == Revived().log;
    assert w'.issued + {p} == {t, p};
    assert Held(w'.room, 1, 64000).admitted == map[1 := 964000];
    assert Held(w'.room, 1, 64000).sessions == map[1 := Meta(Queued, VISITOR, 964000)];
    assert Held(w'.room, 1, 64000) == Revived().room;
  }

  /** The next tick returns the first session once more and cuts its slot to the grace window. */
  function Cut(): World {
    Revived().(room := Room([], map[], map[1 := 125000], map[1 := Meta(Admitted, VISITOR, 964000)], None, false,
                            map[11 := 302000]),
               log := Revived().log + [Admission(1)])
  }

  lemma CutLeads()
    ensures Leads(Shop(60000), Revival() + [TickAt(65000)], 65000, Cut())
  {
    var r := Revived().room;
    hide Leads, Revival;
    RevivalLeads();
    assert Sids(r.queue) == {1} && Lapsed(r.admitted, 65000) == {};
    assert Present(r.queue, r.sessions) == [1];
    FactsTwo(1, 1);
    assert r.admitted - {} == r.admitted;
    Ticking(60000, Revival(), 64000, Revived(), 65000, map[1 := 125000]);
    assert Ticked(r, 65000, map[1 := 125000]) == Cut().room;
  }

  /** Two others join and take both slots as soon as the cut slot has lapsed. */
  function Crowd(): seq<Happening> {
    Revival() + [TickAt(65000)] + [Join(66000, 2)] + [Join(67000, 3)] + [TickAt(126000)]
  }

  function Waiting(): Room {
    Room([Entry(2, 66000.0), Entry(3, 67000.0)], map[2 := 66, 3 := 67], map[1 := 125000],
         map[1 := Meta(Admitted, VISITOR, 964000), 2 := Meta(Queued, VISITOR, 1866000), 3 := Meta(Queued, VISITOR, 1867000)],
         None, false, map[11 := 302000])
  }

  function Crowded(): World {
    Cut().(room := Room([], map[], map[2 := 186000, 3 := 186000],
                        map[1 := Meta(Expired, VISITOR, 964000), 2 := Meta(Admitted, VISITOR, 1866000),
                            3 := Meta(Admitted, VISITOR, 1867000)], None, false, map[11 := 302000]),
           log := Cut().log + [Admission(2), Admission(3)])
  }

  lemma WaitingLeads()
    ensures Leads(Shop(60000), Revival() + [TickAt(65000)] + [Join(66000, 2)] + [Join(67000, 3)], 67000,
                  Cut().(room := Waiting()))
  {
    var hs, w := Revival() + [TickAt(65000)], Cut();
    hide Leads, Revival;
    CutLeads();
    Joining(60000, hs, 65000, w, 66000, 2);
    var r := w.room.(queue := [Entry(2, 66000.0)], seen := map[2 := 66],
                     sessions := w.room.sessions[2 := Meta(Queued, VISITOR, 1866000)]);
    assert [] + [Entry(2, 66000.0)] == [Entry(2, 66000.0)];
    Joining(60000, hs + [Join(66000, 2)], 66000, w.(room := r), 67000, 3);
    assert [Entry(2, 66000.0)] + [Entry(3, 67000.0)] == [Entry(2, 66000.0), Entry(3, 67000.0)];
  }

  lemma CrowdLeads()
    ensures Leads(Shop(60000), Crowd(), 126000, Crowded())
  {
    var hs, w := Revival() + [TickAt(65000)] + [Join(66000, 2)] + [Join(67000, 3)], Cut().(room := Waiting());
    hide Leads, Revival, Cut, Waiting, Ticked, Quiet, Roomy, SlotsAfter, Facts, Present;
    WaitingLeads();
    WaitingAre();
    WaitingRoomy();
    WaitingTicked();
    Ticking(60000, hs, 67000, w, 126000, map[2 := 186000, 3 := 186000]);
    FactsTwo(2, 3);
  }

  lemma FactsTwo(a: Sid, b: Sid)
    ensures Facts([a]) == [Admission(a)] && Facts([a, b]) == [Admission(a), Admission(b)]
  {
  }

  lemma WaitingAre()
    ensures var r := Waiting();
            && Sids(r.queue) == {2, 3} && Lapsed(r.admitted, 126000) == {1} && Present(r.queue, r.sessions) == [2, 3]
  {
    var r := Waiting();
    assert r.queue[1..] == [Entry(3, 67000.0)];
    assert Present(r.queue[1..], r.sessions) == [3];
  }

  lemma WaitingRoomy()
    ensures var r, l := Waiting(), Shop(60000).limits;
            Quiet(r, 126000) && Roomy(l, r, 126000) && SlotsAfter(l, r, 126000, map[2 := 186000, 3 := 186000])
  {
    WaitingAre();
    hide Sids, Lapsed;
    assert Waiting().admitted - {1} == map[];
  }

  lemma WaitingTicked()
    ensures Ticked(Waiting(), 126000, map[2 := 186000, 3 := 186000]) == Crowded().room
  {
    WaitingAre();
    hide Sids, Lapsed;
    assert Waiting().seen - {2, 3} == map[];
  }

  function Overrun(): seq<Happening> {
    Crowd() + ToPass(127000, 2, 21, 22) + ToPass(127000, 3, 31, 32)
  }

  function OverrunLog(): seq<Fact> {
    var t1, t2, t3 := TicketOf(1, 1000, 11), TicketOf(2, 127000, 21), TicketOf(3, 127000, 31);
    var p1, p2, p3 := PassOf(1, 64000, 12), PassOf(2, 127000, 22), PassOf(3, 127000, 32);
    [Admission(1), Minted(t1), Redeemed(t1, p1), Entered(1, p1), Admission(1), Admission(2), Admission(3),
     Minted(t2), Redeemed(t2, p2), Entered(2, p2), Minted(t3), Redeemed(t3, p3), Entered(3, p3)]
  }

  lemma OverrunLeads() returns (w: World)
    ensures Leads(Shop(60000), Overrun(), 127000, w) && w.log == OverrunLog()
  {
    hide Leads, Crowd;
    CrowdLeads();
    var r := Crowded().room;
    Passing(60000, Crowd(), 126000, Crowded(), 127000, 2, 21, 22);
    var w2 := World(Held(r, 2, 127000).(nonces := r.nonces[21 := 428000]),
                    Crowded().issued + {TicketOf(2, 127000, 21)} + {PassOf(2, 127000, 22)}, multiset{},
                    Crowded().log + [Minted(TicketOf(2, 127000, 21))]
                    + [Redeemed(TicketOf(2, 127000, 21), PassOf(2, 127000, 22)), Entered(2, PassOf(2, 127000, 22))]);
    Passing(60000, Crowd() + ToPass(127000, 2, 21, 22), 127000, w2, 127000, 3, 31, 32);
    w := World(Held(w2.room, 3, 127000).(nonces := w2.room.nonces[31 := 428000]),
               w2.issued + {TicketOf(3, 127000, 31)} + {PassOf(3, 127000, 32)}, multiset{},
               w2.log + [Minted(TicketOf(3, 127000, 31))]
               + [Redeemed(TicketOf(3, 127000, 31), PassOf(3, 127000, 32)), Entered(3, PassOf(3, 127000, 32))]);
    assert w.log == OverrunLog();
  }

  lemma OverrunHolders()
    ensures Passes.Holders(OverrunLog(), 128000) == {1, 2, 3}
  {
    var log := OverrunLog();
    assert forall i :: 0 <= i < |log| ==> !log[i].SlotFreed?;
    assert Passes.Active(log, 2, 128000) && Passes.Active(log, 8, 128000) && Passes.Active(log, 11, 128000);
    assert forall k :: 0 <= k < |log| && log[k].Redeemed? ==> log[k].pass.sid in {1, 2, 3};
    assert log[2].pass.sid == 1 && log[8].pass.sid == 2 && log[11].pass.sid == 3;
  }

  /** A run on one clock, with genuine tokens and without flushes, after which three sessions carry a
    pass in date, none released, in a room with two slots: the first session's slot was revived while
    it queued again. */
  lemma ThreePassesForTwoSlots()
    ensures var c, hs := Shop(60000), Overrun();
            && c.limits.capacity == 2 && Unforgeable(c, EMPTY_WORLD, hs)
            && Passes.AllOrdinary(0, hs) && Passes.Latest(0, hs) <= 128000
            && Passes.Holders(After(c, EMPTY_WORLD, hs).log, 128000) == {1, 2, 3}
  {
    var w := OverrunLeads();
    OverrunHolders();
    hide Overrun, OverrunLog, Unforgeable, Passes.AllOrdinary, Passes.Holders, After;
  }

  // ----- a refusal although the slot is held

  /** With a grace window as long as a pass, a ticket redeemed in the millisecond of its tick is
    refused: the slot is held, there is no pass, and the ticket is spent. */
  lemma RefusedInTheMillisecondOfTheTick(y: Gate.Weather)
    requires y.spendAt == y.grantAt == 1000 && y.between == [] && !y.spendDown && !y.grantDown
    ensures var c, hs := Shop(900000), Opening();
            var w := After(c, EMPTY_WORLD, hs);
            var (trace, redemption) := Gate.RedeemTrace(c, w, Presented(TicketOf(1, 1000, 11), true), VISITOR, y);
            && Passes.Synchronous(0, hs) && Unforgeable(c, EMPTY_WORLD, hs) && TicketOf(1, 1000, 11) in w.issued
            && redemption == Gate.Refused
            && var r := After(c, w, trace).room;
            && 1 in r.admitted && r.admitted[1] == 901000 && 11 in r.nonces
  {
    OpeningLeads(900000);
    hide Opening, After, Gate.RedeemTrace, Unforgeable, Passes.Synchronous;
    RefusedAfterOpening(y);
  }

  lemma RefusedAfterOpening(y: Gate.Weather)
    requires y.spendAt == y.grantAt == 1000 && y.between == [] && !y.spendDown && !y.grantDown
    ensures var c, w, t := Shop(900000), Opened(900000), Presented(TicketOf(1, 1000, 11), true);
            var (trace, redemption) := Gate.RedeemTrace(c, w, t, VISITOR, y);
            && redemption == Gate.Refused && w.issued == {t.claims}
            && var r := After(c, w, trace).room;
            && 1 in r.admitted && r.admitted[1] == 901000 && 11 in r.nonces
  {
    var c, w, t := Shop(900000), Opened(900000), Presented(TicketOf(1, 1000, 11), true);
    var spend, grant := Gate.SpendOf(t, VISITOR, y), Gate.GrantOf(t, VISITOR, y);
    var w1 := w.(room := w.room.(nonces := map[11 := 302000]), pending := multiset{t.claims});
    ClaimAfterOpening();
    hide After, Next;
    AfterOne(c, w, spend);
    assert [spend] + [] == [spend];
    Gate.RefusedThoughHeld(c, w, t, VISITOR, y);
    AfterConcat(c, w, [spend], [grant]);
    AfterOne(c, w1, grant);
    NoncesKept(c, w1, 1000, t.claims, y.passNonce);
  }

  lemma ClaimAfterOpening()
    ensures var c, w, t := Shop(900000), Opened(900000), TicketOf(1, 1000, 11);
            && Next(c, w, SpendAt(1000, 1000, t))
               == w.(room := w.room.(nonces := map[11 := 302000]), pending := multiset{t})
            && Tidy(w, 1000) == w
            && Verify(c, Presented(t, true), VISITOR, 1000, Purpose.Ticket) == Accepted && TimeLeft(t, 1000) > 0
  {
    QuietStays(Opened(900000), 1000);
    assert multiset{} + multiset{TicketOf(1, 1000, 11)} == multiset{TicketOf(1, 1000, 11)};
  }

  lemma NoncesKept(c: Config, w: World, at: int, t: Claims, nonce: Nonce)
    ensures forall n :: n in w.room.nonces && at <= w.room.nonces[n] ==> n in Next(c, w, GrantAt(at, t, nonce)).room.nonces
  {
  }

  // ----- an active waiter is dropped

  /** The slot lapses before the ticket is redeemed, and its session queues again. */
  function Return(): seq<Happening> {
    Opening() + [TickAt(62000)] + [Join(63000, 1)]
  }

  function Back(): World {
    Opened(60000).(room := Room([Entry(1, 63000.0)], map[1 := 63], map[], map[1 := Meta(Queued, VISITOR, 1863000)], None, false,
                                map[]))
  }

  lemma PurgeLeads()
    ensures Leads(Shop(60000), Opening() + [TickAt(62000)], 62000, Lapsed1())
  {
    var w := Opened(60000);
    PurgedIs();
    hide Leads, Opening, Opened, Purge;
    OpeningLeads(60000);
    Purging(60000, Opening(), 1000, w, 62000);
  }

  lemma PurgedIs()
    ensures var r := Opened(60000).room;
            && Quiet(r, 62000) && r.queue == []
            && Purge(r, 62000) == Room([], map[], map[], map[1 := Meta(Expired, VISITOR, 1800000)], None, false, map[])
  {
    var r := Opened(60000).room;
    assert Lapsed(r.admitted, 62000) == {1};
    assert r.admitted - {1} == map[];
    assert Mark(r.sessions, {1}, Expired) == map[1 := Meta(Expired, VISITOR, 1800000)];
  }

  function Lapsed1(): World {
    Opened(60000).(room := Room([], map[], map[], map[1 := Meta(Expired, VISITOR, 1800000)], None, false, map[]))
  }

  lemma ReturnLeads()
    ensures Leads(Shop(60000), Return(), 63000, Back())
  {
    PurgedRoom();
    hide Leads, Opening, Lapsed1, Back, Quiet;
    PurgeLeads();
    Joining(60000, Opening() + [TickAt(62000)], 62000, Lapsed1(), 63000, 1);
  }

  lemma PurgedRoom()
    ensures var w, r := Lapsed1(), Lapsed1().room;
            && Quiet(r, 63000) && !r.closed && r.queue == [] && r.admitted == map[] && 1 in r.sessions
            && r.sessions[1].owner == VISITOR
            && Back()
               == w.(room := r.(queue := r.queue + [Entry(1, 63000 as real)], seen := r.seen[1 := Seconds(63000)],
                                sessions := r.sessions[1 := Meta(Queued, VISITOR, 63000 + 1800000)]))
  {
    var r := Lapsed1().room;
    assert [] + [Entry(1, 63000.0)] == [Entry(1, 63000.0)];
    assert r.sessions[1 := Meta(Queued, VISITOR, 1863000)] == map[1 := Meta(Queued, VISITOR, 1863000)];
  }

  /** The late ticket is refused, and the waiter's hash cut to the time to live of a pass. */
  function LateTicket(): seq<Happening> {
    Return() + [SpendAt(64000, 64000, TicketOf(1, 1000, 11))] + [GrantAt(64000, TicketOf(1, 1000, 11), 12)]
  }

  function Shortened(): World {
    Back().(room := Back().room.(sessions := map[1 := Meta(Queued, VISITOR, 964000)], nonces := map[11 := 302000]))
  }

  function ClaimedLate(): World {
    Back().(room := Back().room.(nonces := map[11 := 302000]), pending := multiset{TicketOf(1, 1000, 11)})
  }

  lemma LateClaim()
    ensures Leads(Shop(60000), Return() + [SpendAt(64000, 64000, TicketOf(1, 1000, 11))], 64000, ClaimedLate())
  {
    BackIs();
    hide Leads, Return, Back, ClaimedLate, Quiet, NonceTtl, TicketOf;
    ReturnLeads();
    Spending(60000, Return(), 63000, Back(), 64000, 64000, TicketOf(1, 1000, 11));
  }

  lemma BackIs()
    ensures var w, t := Back(), TicketOf(1, 1000, 11);
            && Quiet(w.room, 64000) && t in w.issued && t.nonce !in w.room.nonces
            && t.purpose == Purpose.Ticket && t.client == Some(VISITOR) && t.room == "shop" && t.exp == 301
            && ClaimedLate()
               == w.(room := w.room.(nonces := w.room.nonces[t.nonce := 64000 + NonceTtl(t, 64000) * 1000]),
                     pending := w.pending + multiset{t})
  {
    var t := TicketOf(1, 1000, 11);
    assert multiset{} + multiset{t} == multiset{t};
  }

  lemma LateTicketLeads()
    ensures Leads(Shop(60000), LateTicket(), 64000, Shortened())
  {
    var t, w := TicketOf(1, 1000, 11), ClaimedLate();
    hide Leads, Return, TicketOf;
    LateClaim();
    TicketSid();
    Refusing(60000, Return() + [SpendAt(64000, 64000, t)], 64000, w, 64000, t, 12);
    assert multiset{t} - multiset{t} == multiset{};
    assert w.room.sessions[1 := Meta(Queued, VISITOR, 964000)] == map[1 := Meta(Queued, VISITOR, 964000)];
  }

  lemma TicketSid()
    ensures TicketOf(1, 1000, 11).sid == 1
  {
  }

  /** A run on one clock, with genuine tokens and without flushes, that drops an active waiter: it
    joins at 63 s, may be silent until 1862 s, and is taken out of the queue at 965 s by a tick that
    returns nobody. */
  lemma ActiveWaiterIsDropped()
    ensures var c, hs := Shop(60000), LateTicket();
            var w := After(c, EMPTY_WORLD, hs);
            && Passes.AllOrdinary(0, hs) && Unforgeable(c, EMPTY_WORLD, hs)
            && Return() <= hs && Waiter.Alive(After(c, EMPTY_WORLD, Return()).room, 1, 1800, 63000)
            && 1 in Sids(w.room.queue)
            && var tick := Event(965000, Op.Tick(1000, 965000));
            && Returned(c.limits, w.room, tick) == [] && 1 !in Sids(Step(c.limits, w.room, tick).queue)
  {
    ReturnLeads();
    LateTicketLeads();
    assert Return() <= LateTicket();
    hide After, Unforgeable, LateTicket, Return, Passes.AllOrdinary, Waiter.Alive, Sids;
    BackAlive();
    DroppedAt965(Shop(60000).limits, Shortened().room);
  }

  lemma BackAlive()
    ensures Waiter.Alive(Back().room, 1, 1800, 63000)
  {
  }

  lemma DroppedAt965(l: Limits, r: Room)
    requires r == Shortened().room
    ensures var tick := Event(965000, Op.Tick(1000, 965000));
            1 in Sids(r.queue) && Returned(l, r, tick) == [] && 1 !in Sids(Step(l, r, tick).queue)
  {
    assert r.queue == [Entry(1, 63000.0)] && r.sessions[1].expireAt == 964000;
    assert !r.closed && r.admitted == map[] && r.bucket == None;
    hide Shortened, Scripts.Tick;
    LoneWaiterIsDropped(l, Expire(r, 965000), 965000, 1000, 965000, 1, 63000.0);
  }

  // ----- one ticket, two passes

  /** The time on the server's clock at which a clock that lags by `lo` sees the ticket expire, which
    was minted when it showed two seconds. */
  function Expiry(lo: int): (e: int)
    ensures 301000 < e <= 302000 && Spent(lo).exp * 1000 == e - lo
  {
    Spent(lo).exp * 1000 + lo
  }

  function Spent(lo: int): Claims {
    TicketOf(1, 2000 - lo, 11)
  }

  /** The ticket is claimed a second time with a lag three milliseconds larger than the first time,
    when the nonce of the first claim has just expired. */
  function Replay(lo: int): seq<Happening> {
    FirstUses(lo) + [SpendAt(Expiry(lo) + 2, Expiry(lo) - lo - 1, Spent(lo))] + [GrantAt(Expiry(lo) + 2, Spent(lo), 13)]
  }

  function FirstUses(lo: int): seq<Happening> {
    var at, t := Expiry(lo) - 299999, Spent(lo);
    [Join(0, 1)] + [TickAt(1000)] + [MintAt(1000, 2000 - lo, 1, 11)] + [SpendAt(at, at - lo, t)] + [GrantAt(at, t, 12)]
  }

  function MintedAhead(lo: int): World {
    Opened(60000).(issued := {Spent(lo)}, log := [Admission(1), Minted(Spent(lo))])
  }

  lemma MintLeads(lo: int)
    ensures Leads(Shop(60000), [Join(0, 1)] + [TickAt(1000)] + [MintAt(1000, 2000 - lo, 1, 11)], 1000, MintedAhead(lo))
  {
    var w := Opened(60000).(issued := {}, log := [Admission(1)]);
    hide Leads, TicketOf;
    FirstTwoLead(60000);
    Minting(60000, [Join(0, 1)] + [TickAt(1000)], 1000, w, 1000, 2000 - lo, 1, 11);
    assert w.issued + {Spent(lo)} == {Spent(lo)};
    assert w.log + [Minted(Spent(lo))] == [Admission(1), Minted(Spent(lo))];
  }

  function UsedOnce(lo: int): World {
    var at, p := Expiry(lo) - 299999, PassOf(1, Expiry(lo) - 299999, 12);
    World(Room([], map[], map[1 := at + 900000], map[1 := Meta(Admitted, VISITOR, at + 900000)], None, false,
               map[11 := at + 300000]),
          {Spent(lo), p}, multiset{}, [Admission(1), Minted(Spent(lo)), Redeemed(Spent(lo), p), Entered(1, p)])
  }

  function ClaimedOnce(lo: int): World {
    MintedAhead(lo).(room := MintedAhead(lo).room.(nonces := map[11 := Expiry(lo) + 1]), pending := multiset{Spent(lo)})
  }

  lemma FirstClaim(lo: int)
    ensures var at := Expiry(lo) - 299999;
            Leads(Shop(60000),
                  [Join(0, 1)] + [TickAt(1000)] + [MintAt(1000, 2000 - lo, 1, 11)] + [SpendAt(at, at - lo, Spent(lo))],
                  at, ClaimedOnce(lo))
  {
    var at := Expiry(lo) - 299999;
    MintedIs(lo);
    hide Leads, MintedAhead, ClaimedOnce, Quiet, NonceTtl, Spent, Expiry;
    MintLeads(lo);
    Spending(60000, [Join(0, 1)] + [TickAt(1000)] + [MintAt(1000, 2000 - lo, 1, 11)], 1000, MintedAhead(lo), at, at - lo, Spent(lo));
  }

  lemma MintedIs(lo: int)
    ensures var w, t, at := MintedAhead(lo), Spent(lo), Expiry(lo) - 299999;
            && Quiet(w.room, at) && t in w.issued && t.nonce !in w.room.nonces && at - lo < t.exp * 1000
            && t.purpose == Purpose.Ticket && t.client == Some(VISITOR) && t.room == "shop"
            && ClaimedOnce(lo)
               == w.(room := w.room.(nonces := w.room.nonces[t.nonce := at + NonceTtl(t, at - lo) * 1000]),
                     pending := w.pending + multiset{t})
  {
    var w, t, at := MintedAhead(lo), Spent(lo), Expiry(lo) - 299999;
    hide Expiry;
    assert NonceTtl(t, at - lo) == 300;
    assert w.pending + multiset{t} == multiset{t};
  }

  lemma FirstUse(lo: int)
    ensures Leads(Shop(60000), FirstUses(lo), Expiry(lo) - 299999, UsedOnce(lo))
  {
    var at, t, w := Expiry(lo) - 299999, Spent(lo), ClaimedOnce(lo);
    var p := PassOf(1, at, 12);
    hide Leads, TicketOf, Expiry, PassOf;
    FirstClaim(lo);
    Granting(60000, [Join(0, 1)] + [TickAt(1000)] + [MintAt(1000, 2000 - lo, 1, 11)] + [SpendAt(at, at - lo, t)],
             at, w, at, t, 12);
    assert multiset{t} - multiset{t} == multiset{};
    assert w.log + [Redeemed(t, p), Entered(1, p)] == UsedOnce(lo).log;
    assert w.issued + {p} == {t, p};
    assert Held(w.room, 1, at).admitted == map[1 := at + 900000];
    assert Held(w.room, 1, at).sessions == map[1 := Meta(Admitted, VISITOR, at + 900000)];
    assert Held(w.room, 1, at) == UsedOnce(lo).room;
  }

  lemma SecondClaim(lo: int)
    ensures Next(Shop(60000), UsedOnce(lo), SpendAt(Expiry(lo) + 2, Expiry(lo) - lo - 1, Spent(lo)))
         == UsedOnce(lo).(room := UsedOnce(lo).room.(nonces := map[11 := Expiry(lo) + 1002]), pending := multiset{Spent(lo)})
  {
    var r, e := UsedOnce(lo).room, Expiry(lo);
    hide Expiry;
    assert LiveSessions(r.sessions, e + 2) == r.sessions;
    assert LiveNonces(r.nonces, e + 2) == map[];
    assert multiset{} + multiset{Spent(lo)} == multiset{Spent(lo)};
  }

  lemma ReplayLeads(lo: int) returns (w: World)
    ensures Leads(Shop(60000), Replay(lo), Expiry(lo) + 2, w) && SingleUse.Uses(w.log, Spent(lo)) == 2
  {
    var e, t := Expiry(lo), Spent(lo);
    var p := PassOf(1, e + 2, 13);
    var w2 := UsedOnce(lo).(room := UsedOnce(lo).room.(nonces := map[11 := e + 1002]), pending := multiset{t});
    hide Leads, FirstUses, Next, UsedOnce, Expiry;
    FirstUse(lo);
    SecondClaim(lo);
    UsedIs(lo);
    Extend(Shop(60000), FirstUses(lo), e - 299999, UsedOnce(lo), SpendAt(e + 2, e - lo - 1, t));
    Granting(60000, FirstUses(lo) + [SpendAt(e + 2, e - lo - 1, t)], e + 2, w2, e + 2, t, 13);
    w := World(Held(w2.room, 1, e + 2), w2.issued + {p}, w2.pending - multiset{t}, w2.log + [Redeemed(t, p), Entered(1, p)]);
    TwoUses(lo, p);
  }

  lemma UsedIs(lo: int)
    ensures var w, e := UsedOnce(lo), Expiry(lo);
            && Spent(lo) in w.issued && 1 in w.room.sessions && 1 in w.room.admitted && w.room.admitted[1] < e + 900000
            && Quiet(w.room.(nonces := map[11 := e + 1002]), e + 2)
  {
    hide Expiry;
  }

  lemma TwoUses(lo: int, p: Claims)
    ensures SingleUse.Uses(UsedOnce(lo).log + [Redeemed(Spent(lo), p), Entered(1, p)], Spent(lo)) == 2
  {
    var t, q := Spent(lo), PassOf(1, Expiry(lo) - 299999, 12);
    hide Spent, Expiry, PassOf;
    SingleUse.UsesConcat([Admission(1), Minted(t)], [Redeemed(t, q), Entered(1, q)], t);
    SingleUse.UsesConcat(UsedOnce(lo).log, [Redeemed(t, p), Entered(1, p)], t);
    assert UsedOnce(lo).log == [Admission(1), Minted(t)] + [Redeemed(t, q), Entered(1, q)];
    TwoFacts(t, p);
    TwoFacts(t, q);
    SingleUse.NoUses([Admission(1), Minted(t)], t);
  }

  lemma TwoFacts(t: Claims, p: Claims)
    ensures SingleUse.Uses([Redeemed(t, p), Entered(1, p)], t) == 1
  {
    assert [Redeemed(t, p), Entered(1, p)][1..] == [Entered(1, p)];
    SingleUse.NoUses([Entered(1, p)], t);
  }

  /** Flush-free runs with genuine tokens on a server's clock that never goes back, in which the lags
    between checks and claims are between `lo` and `hi`. */
  ghost predicate Orderly(lo: int, hi: int, hs: seq<Happening>) {
    && SingleUse.Ordered(0, hs) && SingleUse.Prompt(lo, hi, hs) && Unforgeable(Shop(60000), EMPTY_WORLD, hs)
    && forall h :: h in hs ==> !SingleUse.IsFlush(h)
  }

  /** The passes the ticket bought along the run. */
  function Bought(hs: seq<Happening>, t: Claims): nat {
    SingleUse.Uses(After(Shop(60000), EMPTY_WORLD, hs).log, t)
  }

  lemma {:induction false} SynchronousIsOrdered(from: int, hs: seq<Happening>)
    requires Passes.Synchronous(from, hs)
    ensures SingleUse.Ordered(from, hs)
    decreases hs
  {
    if hs != [] {
      SynchronousIsOrdered(hs[0].clock, hs[1..]);
    }
  }

  lemma ReplayOrderly(lo: int, hi: int)
    requires hi - lo >= 3
    ensures Orderly(lo, hi, Replay(lo)) && Bought(Replay(lo), Spent(lo)) == 2
  {
    var w := ReplayLeads(lo);
    SynchronousIsOrdered(0, Replay(lo));
    ReplayPrompt(lo, hi);
    hide After, Unforgeable, SingleUse.Uses, SingleUse.Ordered, SingleUse.Prompt, Replay, Expiry, Spent;
  }

  lemma ReplayPrompt(lo: int, hi: int)
    requires hi - lo >= 3
    ensures SingleUse.Prompt(lo, hi, Replay(lo))
  {
    hide Expiry, Spent;
  }

  /** Every ticket yields at most one pass in every such run if and only if the lags differ by at most
    two milliseconds. */
  lemma SingleUseExactly(lo: int, hi: int)
    ensures (forall hs, t :: Orderly(lo, hi, hs) ==> Bought(hs, t) <= 1) <==> hi - lo <= 2
  {
    hide After, Unforgeable, SingleUse.Uses;
    if hi - lo <= 2 {
      forall hs, t | Orderly(lo, hi, hs) ensures Bought(hs, t) <= 1 {
        SingleUse.EachTicketOnePass(Shop(60000), hs, t, 0, lo, hi);
      }
    } else {
      hide Replay, Orderly, Bought;
      ReplayOrderly(lo, hi);
    }
  }
}
