/** Passes against slots: exactly when every pass in date has its slot, and then passes never
  outnumber the capacity of the room. */
module Passes {
  import opened Types
  import opened ZSet
  import opened Scripts
  import opened Runs
  import opened Invariants
  import opened Fairness
  import opened Slots
  import opened Exchange

  /** One nondecreasing clock for scripts, and for a redeem from the hold to the pass. Tickets may
    be checked, signed and shown by clocks of their own. */
  predicate Synchronous(from: int, hs: seq<Happening>)
    decreases hs
  {
    hs == [] || (from <= hs[0].clock && Punctual(hs[0]) && Synchronous(hs[0].clock, hs[1..]))
  }

  predicate Punctual(h: Happening) {
    match h.act
    case Store(op) => InTime(Event(h.clock, op))
    case Grant(_, _, _) => h.now == h.clock
    case _ => true
  }

  /** The engine holds slots only by redeeming; and nobody flushes the room. */
  predicate Ordinary(h: Happening) {
    h.act.Store? ==> !h.act.op.Flush? && !h.act.op.Hold?
  }

  function Latest(from: int, hs: seq<Happening>): int {
    if hs == [] then from else hs[|hs| - 1].clock
  }

  /** Entry `k` of the log is a redemption whose pass is still in date at `m`, and the slot it
    holds has not been released since. */
  predicate Active(log: seq<Fact>, k: nat, m: int) {
    && k < |log| && log[k].Redeemed? && m < log[k].pass.exp * 1000
    && forall i :: k < i < |log| ==> log[i] != SlotFreed(log[k].pass.sid)
  }

  /** The sessions that carry an active pass at `m`. */
  function Holders(log: seq<Fact>, m: int): set<Sid> {
    set k | 0 <= k < |log| && Active(log, k, m) :: log[k].pass.sid
  }

  ghost predicate Live(r: Room, s: Sid, clock: int) {
    s in r.admitted && r.admitted[s] > clock
  }

  /** Every active pass has a slot that lasts as long. */
  ghost predicate Covered(w: World, clock: int) {
    forall k :: 0 <= k < |w.log| && Active(w.log, k, clock) ==>
      var p := w.log[k].pass;
      p.sid in w.room.admitted && p.exp * 1000 <= w.room.admitted[p.sid]
  }

  /** No pass is issued for longer than the time to live of passes. */
  ghost predicate Dated(c: Config, w: World, clock: int) {
    forall k :: 0 <= k < |w.log| && w.log[k].Redeemed? ==> w.log[k].pass.exp * 1000 <= clock + c.admittedTtl * 1000
  }

  /** A tick returns a session that carries an active pass, which is good for longer than the grace
    window. */
  ghost predicate Cuts(c: Config, w: World, h: Happening) {
    h.act.Store? && CutsSlot(c, Tidy(w, h.clock), h.clock, h.act.op)
  }

  ghost predicate CutsSlot(c: Config, w: World, clock: int, op: Op) {
    op.Tick? && exists k :: 0 <= k < |w.log| && Active(w.log, k, clock) && IsCut(c, w, clock, op, w.log[k].pass)
  }

  ghost predicate IsCut(c: Config, w: World, clock: int, op: Op, p: Claims) {
    p.sid in Output(c.limits, w.room, clock, op) && p.exp * 1000 > clock + c.limits.grace
  }

  // ----- logs

  lemma ActiveEarlier(log: seq<Fact>, k: nat, m: int, m': int)
    requires Active(log, k, m') && m <= m'
    ensures Active(log, k, m)
  {
  }

  /** A pass that is active after the log grew was active before, unless it is new. */
  lemma ActiveBefore(log: seq<Fact>, more: seq<Fact>, k: nat, m: int)
    requires Active(log + more, k, m) && k < |log|
    ensures Active(log, k, m) && (log + more)[k] == log[k]
    ensures forall i :: 0 <= i < |more| ==> more[i] != SlotFreed(log[k].pass.sid)
  {
    forall i | k < i < |log| ensures log[i] != SlotFreed(log[k].pass.sid) {
      assert (log + more)[i] == log[i];
    }
    forall i | 0 <= i < |more| ensures more[i] != SlotFreed(log[k].pass.sid) {
      assert (log + more)[|log| + i] == more[i];
    }
  }

  lemma ActiveLater(log: seq<Fact>, more: seq<Fact>, k: nat, m: int)
    requires Active(log, k, m) && forall i :: 0 <= i < |more| ==> !more[i].SlotFreed?
    ensures Active(log + more, k, m) && (log + more)[k] == log[k]
  {
    forall i | k < i < |log + more| ensures (log + more)[i] != SlotFreed(log[k].pass.sid) {
      assert (log + more)[i] == if i < |log| then log[i] else more[i - |log|];
    }
  }

  /** Facts that are no redemptions cover as before, if the room still has a slot for every active
    pass that they leave unreleased. */
  lemma CoverStays(w: World, w': World, more: seq<Fact>, clock: int)
    requires Covered(w, clock) && w'.log == w.log + more
    requires forall i :: 0 <= i < |more| ==> !more[i].Redeemed?
    requires forall k :: 0 <= k < |w.log| && Active(w.log, k, clock) && SlotFreed(w.log[k].pass.sid) !in more ==>
               w.log[k].pass.sid in w'.room.admitted && w.log[k].pass.exp * 1000 <= w'.room.admitted[w.log[k].pass.sid]
    ensures Covered(w', clock)
  {
    assert forall k :: |w.log| <= k < |w'.log| ==> w'.log[k] == more[k - |w.log|];
    forall k | 0 <= k < |w'.log| && Active(w'.log, k, clock)
      ensures var p := w'.log[k].pass; p.sid in w'.room.admitted && p.exp * 1000 <= w'.room.admitted[p.sid]
    {
      ActiveBefore(w.log, more, k, clock);
    }
  }

  // ----- steps of the store

  /** What a step does to a slot that has not lapsed: it stays as it is, but for a release of that
    very slot, and a tick that returns its session once more and starts its grace window. */
  lemma SlotsMove(l: Limits, r: Room, clock: int, op: Op)
    requires Inv(l, r) && InTime(Event(clock, op)) && !op.Flush? && !op.Hold?
    ensures var r', out := Apply(l, r, clock, op), Output(l, r, clock, op);
            forall s :: Live(r, s, clock) && !(op.Release? && op.sid == s) ==>
              s in r'.admitted && r'.admitted[s] == if s in out then clock + l.grace else r.admitted[s]
  {
    hide Inv, Sids, Place, Scripts.Tick, AddNX, Without, Touch, Mark;
    if op.Tick? {
      hide Popped, Present;
      TickConserves(l, r, clock, op.maxN, op.now);
    }
  }

  function News(c: Config, w: World, clock: int, op: Op): seq<Fact> {
    if op.Release? && op.sid in w.room.admitted then [SlotFreed(op.sid)] else Facts(Output(c.limits, w.room, clock, op))
  }

  lemma StoreKeepsCover(c: Config, w: World, clock: int, op: Op)
    requires Inv(c.limits, w.room) && Covered(w, clock) && InTime(Event(clock, op)) && !op.Flush? && !op.Hold?
    requires !CutsSlot(c, w, clock, op)
    ensures Covered(StoreStep(c, w, clock, op), clock)
  {
    SlotsMove(c.limits, w.room, clock, op);
    var more, w' := News(c, w, clock, op), StoreStep(c, w, clock, op);
    assert op.Release? && op.sid in w.room.admitted ==> more == [SlotFreed(op.sid)];
    NoOutput(c.limits, w.room, clock, op);
    hide Inv, Apply, Output;
    forall k | 0 <= k < |w.log| && Active(w.log, k, clock) && SlotFreed(w.log[k].pass.sid) !in more
      ensures w.log[k].pass.sid in w'.room.admitted && w.log[k].pass.exp * 1000 <= w'.room.admitted[w.log[k].pass.sid]
    {
      assert Live(w.room, w.log[k].pass.sid, clock);
      assert op.Tick? ==> !IsCut(c, w, clock, op, w.log[k].pass);
    }
    hide Covered;
    CoverStays(w, w', more, clock);
  }

  lemma CutShows(c: Config, w: World, clock: int, op: Op)
    requires Inv(c.limits, w.room) && Covered(w, clock) && InTime(Event(clock, op)) && CutsSlot(c, w, clock, op)
    ensures !Covered(StoreStep(c, w, clock, op), clock)
  {
    SlotsMove(c.limits, w.room, clock, op);
    var more := News(c, w, clock, op);
    assert forall i :: 0 <= i < |more| ==> !more[i].SlotFreed?;
    var k :| 0 <= k < |w.log| && Active(w.log, k, clock) && IsCut(c, w, clock, op, w.log[k].pass);
    hide Inv, Apply, Output, Facts;
    ActiveLater(w.log, more, k, clock);
    assert Live(w.room, w.log[k].pass.sid, clock);
    assert StoreStep(c, w, clock, op).log == w.log + more;
  }

  // ----- steps around the store

  /** A hold leaves the slot as long as every pass of the session needs it, the new one included. */
  lemma GrantCovers(c: Config, w: World, clock: int, t: Claims, owner: Owner, nonce: Nonce)
    requires Covered(w, clock) && Dated(c, w, clock)
    ensures Covered(GrantStep(c, w, clock, clock, t, owner, nonce), clock)
  {
    var w' := GrantStep(c, w, clock, clock, t, owner, nonce);
    var pass := Issue(c, t.sid, owner, clock, c.admittedTtl, nonce, Pass);
    assert pass.exp * 1000 <= clock + c.admittedTtl * 1000 && pass.sid == t.sid;
    hide Issue, Touch;
    var more := w'.log[|w.log|..];
    assert w'.log == w.log + more;
    forall k | 0 <= k < |w'.log| && Active(w'.log, k, clock)
      ensures var p := w'.log[k].pass; p.sid in w'.room.admitted && p.exp * 1000 <= w'.room.admitted[p.sid]
    {
      if k < |w.log| {
        ActiveBefore(w.log, more, k, clock);
      }
    }
  }

  /** Signing, claiming, showing and other rooms touch neither slots nor redemptions. */
  lemma OtherCovers(c: Config, w: World, h: Happening)
    requires Covered(w, h.clock) && !h.act.Store? && !h.act.Grant?
    ensures Covered(Do(c, w, h), h.clock)
  {
    hide Issue, Verify, NonceTtl, OpenClaims;
    var w' := Do(c, w, h);
    CoverStays(w, w', w'.log[|w.log|..], h.clock);
  }

  /** Exactly: a step leaves every active pass with a slot that lasts as long if and only if it does
    not cut one. */
  lemma CoveredExactly(c: Config, w: World, h: Happening, from: int)
    requires Inv(c.limits, w.room) && Dated(c, w, from) && Covered(w, from)
    requires Synchronous(from, [h]) && Ordinary(h)
    ensures Covered(Next(c, w, h), h.clock) <==> !Cuts(c, w, h)
  {
    var x := Tidy(w, h.clock);
    ExpireInv(c.limits, w.room, h.clock);
    CoverWaits(w, from, h.clock);
    hide Inv, Expire, Covered, StoreStep, GrantStep, CutsSlot;
    match h.act
    case Store(op) =>
      if CutsSlot(c, x, h.clock, op) {
        CutShows(c, x, h.clock, op);
      } else {
        StoreKeepsCover(c, x, h.clock, op);
      }
    case Grant(t, owner, nonce) => GrantCovers(c, x, h.clock, t, owner, nonce);
    case _ => OtherCovers(c, x, h);
  }

  lemma CoverWaits(w: World, from: int, clock: int)
    requires Covered(w, from) && from <= clock
    ensures Covered(Tidy(w, clock), clock)
  {
    forall k | 0 <= k < |w.log| && Active(w.log, k, clock) ensures Active(w.log, k, from) {
      ActiveEarlier(w.log, k, from, clock);
    }
  }

  lemma NextDated(c: Config, w: World, h: Happening, from: int)
    requires Dated(c, w, from) && Synchronous(from, [h])
    ensures Dated(c, Next(c, w, h), h.clock)
  {
    hide Expire, Apply, Output, Verify, Scripts.Claim, Scripts.Hold, OpenClaims;
  }

  // ----- runs

  ghost predicate CoveredThroughout(c: Config, w: World, hs: seq<Happening>)
    decreases hs
  {
    hs == [] || (Covered(Next(c, w, hs[0]), hs[0].clock) && CoveredThroughout(c, Next(c, w, hs[0]), hs[1..]))
  }

  ghost predicate NeverCuts(c: Config, w: World, hs: seq<Happening>)
    decreases hs
  {
    hs == [] || (!Cuts(c, w, hs[0]) && NeverCuts(c, Next(c, w, hs[0]), hs[1..]))
  }

  predicate AllOrdinary(from: int, hs: seq<Happening>) {
    Synchronous(from, hs) && forall h :: h in hs ==> Ordinary(h)
  }

  lemma {:induction false} AfterCoveredExactly(c: Config, w: World, hs: seq<Happening>, from: int)
    requires Inv(c.limits, w.room) && Dated(c, w, from) && Covered(w, from) && AllOrdinary(from, hs)
    ensures CoveredThroughout(c, w, hs) <==> NeverCuts(c, w, hs)
    ensures NeverCuts(c, w, hs) ==> Covered(After(c, w, hs), Latest(from, hs))
    decreases hs
  {
    if hs != [] {
      hide Inv, Dated, Covered, Next, Cuts, Ordinary;
      assert hs[0] in hs && forall h :: h in hs[1..] ==> h in hs;
      CoveredExactly(c, w, hs[0], from);
      NextInv(c, w, hs[0]);
      NextDated(c, w, hs[0], from);
      if !Cuts(c, w, hs[0]) {
        AfterCoveredExactly(c, Next(c, w, hs[0]), hs[1..], hs[0].clock);
      }
    }
  }

  lemma NothingCovered(c: Config, from: int)
    ensures Inv(c.limits, EMPTY_WORLD.room) && Dated(c, EMPTY_WORLD, from) && Covered(EMPTY_WORLD, from)
  {
    EmptyInv(c.limits);
  }

  /** Over every flush-free run on one clock with holds only by redeeming, every pass in date with
    no release since has a slot that lasts as long, after every step, if and only if no tick cuts
    the slot of such a pass. */
  lemma CoveredIffNeverCuts(c: Config, hs: seq<Happening>, from: int)
    requires AllOrdinary(from, hs)
    ensures CoveredThroughout(c, EMPTY_WORLD, hs) <==> NeverCuts(c, EMPTY_WORLD, hs)
  {
    NothingCovered(c, from);
    AfterCoveredExactly(c, EMPTY_WORLD, hs, from);
  }

  /** And then, at every moment from the last step on, the sessions with a pass in date and no
    release since its redemption all hold a slot, so they are at most `capacity`. */
  lemma PassesWithinCapacity(c: Config, hs: seq<Happening>, from: int, m: int)
    requires AllOrdinary(from, hs) && NeverCuts(c, EMPTY_WORLD, hs) && Latest(from, hs) <= m
    ensures var w := After(c, EMPTY_WORLD, hs);
            && Holders(w.log, m) <= w.room.admitted.Keys
            && (c.limits.capacity > 0 ==> |Holders(w.log, m)| <= c.limits.capacity)
  {
    NothingCovered(c, from);
    AfterCoveredExactly(c, EMPTY_WORLD, hs, from);
    AfterInv(c, EMPTY_WORLD, hs);
    var w := After(c, EMPTY_WORLD, hs);
    hide After, NeverCuts, AllOrdinary;
    forall s | s in Holders(w.log, m) ensures s in w.room.admitted {
      var k :| 0 <= k < |w.log| && Active(w.log, k, m) && w.log[k].pass.sid == s;
      ActiveEarlier(w.log, k, Latest(from, hs), m);
    }
    SubsetSize(Holders(w.log, m), w.room.admitted.Keys);
  }

  // ----- when nobody with a slot joins again

  /** No session joins while it holds a slot and has no hash. */
  ghost predicate NobodyRejoins(c: Config, w: World, hs: seq<Happening>)
    decreases hs
  {
    hs == [] ||
    (!(hs[0].act.Store? && Rejoins(Tidy(w, hs[0].clock).room, hs[0].act.op)) && NobodyRejoins(c, Next(c, w, hs[0]), hs[1..]))
  }

  /** A tick that cuts returns a session that both queues and holds a slot. */
  lemma CutsOverlap(c: Config, w: World, h: Happening, from: int)
    requires Covered(w, from) && from <= h.clock && Cuts(c, w, h)
    ensures !Apart(w.room)
  {
    var x, op := Tidy(w, h.clock), h.act.op;
    CoverWaits(w, from, h.clock);
    var k :| 0 <= k < |x.log| && Active(x.log, k, h.clock) && IsCut(c, x, h.clock, op, x.log[k].pass);
    var s := x.log[k].pass.sid;
    hide Sids, Output, Apply;
    if s !in Sids(w.room.queue) {
      OnlyJoiningQueues(c.limits, w.room, Event(h.clock, op), s);
    }
  }

  lemma NextApart(c: Config, w: World, h: Happening)
    requires Inv(c.limits, w.room) && Apart(w.room) && !(h.act.Store? && Rejoins(Tidy(w, h.clock).room, h.act.op))
    ensures Apart(Next(c, w, h).room)
  {
    var x := Tidy(w, h.clock).room;
    ExpireInv(c.limits, w.room, h.clock);
    hide Inv, Sids, Apply, Output, Rejoins, Issue, Verify, NonceTtl, OpenClaims;
    if h.act.Store? {
      assert Apart(x);
      StaysApart(c.limits, x, h.clock, h.act.op);
    }
  }

  lemma {:induction false} NobodyRejoinsNeverCuts(c: Config, w: World, hs: seq<Happening>, from: int)
    requires Inv(c.limits, w.room) && Dated(c, w, from) && Covered(w, from) && Apart(w.room)
    requires AllOrdinary(from, hs) && NobodyRejoins(c, w, hs)
    ensures NeverCuts(c, w, hs)
    decreases hs
  {
    if hs != [] {
      hide Inv, Dated, Covered, Next, Cuts, Ordinary, Apart, Rejoins, Tidy;
      assert hs[0] in hs && forall h :: h in hs[1..] ==> h in hs;
      if Cuts(c, w, hs[0]) {
        CutsOverlap(c, w, hs[0], from);
      }
      CoveredExactly(c, w, hs[0], from);
      NextInv(c, w, hs[0]);
      NextDated(c, w, hs[0], from);
      NextApart(c, w, hs[0]);
      NobodyRejoinsNeverCuts(c, Next(c, w, hs[0]), hs[1..], hs[0].clock);
    }
  }

  /** As long as no session joins that holds a slot and has no hash, whoever abandons, lapses or is
    reclaimed, passes never outnumber the capacity. */
  lemma PassesWithinCapacityWithoutRejoining(c: Config, hs: seq<Happening>, from: int, m: int)
    requires c.limits.capacity > 0 && AllOrdinary(from, hs) && Latest(from, hs) <= m
    requires NobodyRejoins(c, EMPTY_WORLD, hs)
    ensures |Holders(After(c, EMPTY_WORLD, hs).log, m)| <= c.limits.capacity
  {
    NothingCovered(c, from);
    NobodyRejoinsNeverCuts(c, EMPTY_WORLD, hs, from);
    hide After, NobodyRejoins, NeverCuts, Holders, AllOrdinary;
    PassesWithinCapacity(c, hs, from, m);
  }

  // ----- when the grace window is long

  lemma {:induction false} LongGraceNeverCuts(c: Config, w: World, hs: seq<Happening>, from: int)
    requires Dated(c, w, from) && Synchronous(from, hs) && c.admittedTtl * 1000 <= c.limits.grace
    ensures NeverCuts(c, w, hs)
    decreases hs
  {
    if hs != [] {
      NextDated(c, w, hs[0], from);
      hide Next, Output, Expire;
      LongGraceNeverCuts(c, Next(c, w, hs[0]), hs[1..], hs[0].clock);
    }
  }

  /** In a room whose grace window is at least as long as a pass no run has too many passes. */
  lemma PassesWithinCapacityWithLongGrace(c: Config, hs: seq<Happening>, from: int, m: int)
    requires c.limits.capacity > 0 && AllOrdinary(from, hs) && Latest(from, hs) <= m
    requires c.admittedTtl * 1000 <= c.limits.grace
    ensures |Holders(After(c, EMPTY_WORLD, hs).log, m)| <= c.limits.capacity
  {
    NothingCovered(c, from);
    LongGraceNeverCuts(c, EMPTY_WORLD, hs, from);
    hide After, NeverCuts, Holders;
    PassesWithinCapacity(c, hs, from, m);
  }

  // ----- when nobody in the admitted set loses a hash

  /** No session in the admitted set loses its hash by its time to live or by abandoning. */
  ghost predicate HashesStay(w: World, h: Happening) {
    && Ordinary(h)
    && KeepsHashes(w.room, Event(h.clock, if h.act.Store? then h.act.op else KillSwitch(false)))
  }

  ghost predicate AllHashesStay(c: Config, w: World, hs: seq<Happening>)
    decreases hs
  {
    hs == [] || (HashesStay(w, hs[0]) && AllHashesStay(c, Next(c, w, hs[0]), hs[1..]))
  }

  /** Who keeps the hash does not rejoin. */
  lemma HashesStayNoRejoin(w: World, h: Happening)
    requires Exact(w.room) && HashesStay(w, h) && h.act.Store?
    ensures !Rejoins(Tidy(w, h.clock).room, h.act.op)
  {
    hide Sids;
  }

  lemma NextExact(c: Config, w: World, h: Happening)
    requires Inv(c.limits, w.room) && Exact(w.room) && HashesStay(w, h) && c.admittedTtl > 0
    ensures Exact(Next(c, w, h).room)
  {
    if h.act.Store? {
      hide Inv, Exact, KeepsHashes;
      StepExact(c.limits, w.room, Event(h.clock, h.act.op));
    } else {
      ExpireExact(w.room, Event(h.clock, KillSwitch(false)));
      hide Exact, KeepsHashes, Expire;
      ExchangeExact(c, Tidy(w, h.clock), h);
    }
  }

  lemma ExchangeExact(c: Config, w: World, h: Happening)
    requires Exact(w.room) && !h.act.Store? && c.admittedTtl > 0
    ensures Exact(Do(c, w, h).room)
  {
    hide Sids, Issue, Verify, NonceTtl, OpenClaims;
  }

  lemma {:induction false} HashesStayNobodyRejoins(c: Config, w: World, hs: seq<Happening>)
    requires Inv(c.limits, w.room) && Exact(w.room) && c.admittedTtl > 0 && AllHashesStay(c, w, hs)
    ensures NobodyRejoins(c, w, hs) && forall h :: h in hs ==> Ordinary(h)
    decreases hs
  {
    if hs != [] {
      if hs[0].act.Store? {
        HashesStayNoRejoin(w, hs[0]);
      }
      assert Ordinary(hs[0]);
      hide Inv, Exact, Next, HashesStay, Rejoins, Ordinary, Tidy;
      NextInv(c, w, hs[0]);
      NextExact(c, w, hs[0]);
      HashesStayNobodyRejoins(c, Next(c, w, hs[0]), hs[1..]);
      assert hs == [hs[0]] + hs[1..];
    }
  }

  /** In particular when no session in the admitted set loses its hash by its time to live or by
    abandoning. */
  lemma PassesWithinCapacityPlainly(c: Config, hs: seq<Happening>, from: int, m: int)
    requires c.limits.capacity > 0 && c.admittedTtl > 0
    requires Synchronous(from, hs) && AllHashesStay(c, EMPTY_WORLD, hs) && Latest(from, hs) <= m
    ensures |Holders(After(c, EMPTY_WORLD, hs).log, m)| <= c.limits.capacity
  {
    EmptyInv(c.limits);
    HashesStayNobodyRejoins(c, EMPTY_WORLD, hs);
    hide After, AllHashesStay, NobodyRejoins, Holders, Ordinary;
    PassesWithinCapacityWithoutRejoining(c, hs, from, m);
  }

  // ----- the conditions matter

  /** A pass is good, and its slot nevertheless lapsed, at exactly one moment and for exactly some
    passes: at the very instant of its expiry second, if it was issued on a whole second. "In date"
    therefore means strictly before that instant. */
  lemma LastInstant(c: Config, r: Room, clock: int, sid: Sid, owner: Owner, nonce: Nonce, m: int)
    requires sid in r.admitted
    ensures var pass := Issue(c, sid, owner, clock, c.admittedTtl, nonce, Pass);
            var held := Scripts.Hold(r, clock, sid, clock, c.admittedTtl).0;
            Verify(c, Presented(pass, true), owner, m, Pass) == Accepted && sid in Lapsed(held.admitted, m)
            <==> m == pass.exp * 1000 && clock % 1000 == 0
  {
  }

  /** A slot that lapsed but was not purged yet can be revived while its session queues again; the
    tick that returns the session then cuts the slot to the grace window, however long it was
    held. */
  lemma RevivedSlotIsCut(l: Limits, r: Room, clock: int, sid: Sid, seconds: int, at: int, maxN: int, now: int)
    requires Inv(l, r)
    requires sid in Scripts.Tick(l, Scripts.Hold(r, clock, sid, clock, seconds).0, at, maxN, now).1
    ensures var held := Scripts.Hold(r, clock, sid, clock, seconds).0;
            var ticked := Scripts.Tick(l, held, at, maxN, now).0;
            && (sid in r.admitted ==> held.admitted[sid] == clock + seconds * 1000)
            && sid in ticked.admitted && ticked.admitted[sid] == now + l.grace
  {
    HoldInv(l, r, clock, sid, clock, seconds);
    hide Inv, Sids, Place, Scripts.Tick;
    TickConserves(l, Scripts.Hold(r, clock, sid, clock, seconds).0, at, maxN, now);
  }
}
