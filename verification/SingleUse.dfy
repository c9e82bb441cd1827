/** A ticket buys at most one pass, for all time, although the nonce store forgets. */
module SingleUse {
  import opened Types
  import opened ZSet
  import opened Scripts
  import opened Runs
  import opened Exchange

  /** The server's clock never goes back. */
  predicate Ordered(from: int, hs: seq<Happening>)
    decreases hs
  {
    hs == [] || (from <= hs[0].clock && Ordered(hs[0].clock, hs[1..]))
  }

  /** The claim of a nonce reaches the server between `lo` and `hi` milliseconds, on the server's
    clock, after the time the worker's clock showed when it found the ticket in date. Negative lags
    are clocks that are ahead. */
  predicate Prompt(lo: int, hi: int, hs: seq<Happening>) {
    forall h :: h in hs && h.act.Spend? ==> h.now + lo <= h.clock <= h.now + hi
  }

  predicate IsFlush(h: Happening) {
    h.act.Store? && h.act.op.Flush?
  }

  /** How often the ticket was redeemed. */
  function Uses(log: seq<Fact>, t: Claims): nat {
    if log == [] then 0
    else (if log[0].Redeemed? && log[0].ticket == t then 1 else 0) + Uses(log[1..], t)
  }

  lemma {:induction false} UsesConcat(a: seq<Fact>, b: seq<Fact>, t: Claims)
    ensures Uses(a + b, t) == Uses(a, t) + Uses(b, t)
  {
    if a == [] {
      assert a + b == b;
    } else {
      assert (a + b)[1..] == a[1..] + b;
      UsesConcat(a[1..], b, t);
    }
  }

  lemma {:induction false} NoUses(log: seq<Fact>, t: Claims)
    requires forall i :: 0 <= i < |log| ==> !log[i].Redeemed?
    ensures Uses(log, t) == 0
  {
    if log != [] {
      NoUses(log[1..], t);
    }
  }

  /** A claimed ticket is out of date for good, for clocks that lag by at least `lo`, or its nonce is
    remembered until it will be. */
  ghost predicate Remembered(r: Room, t: Claims, clock: int, lo: int) {
    t.exp * 1000 + lo + 1 < clock || (t.nonce in r.nonces && t.exp * 1000 + lo < r.nonces[t.nonce])
  }

  ghost predicate SpentOnce(w: World, t: Claims, clock: int, lo: int) {
    && Uses(w.log, t) + w.pending[t] <= 1
    && (Uses(w.log, t) + w.pending[t] == 1 ==> Remembered(w.room, t, clock, lo))
  }

  /** The nonce of a token checked at `now` and claimed at `clock` outlives the token, shifted by the
    lag between the two: it is kept for the time left, rounded down to seconds, and one second
    more. */
  lemma NonceOutlives(t: Claims, now: int, clock: int)
    ensures var kept := clock + NonceTtl(t, now) * 1000;
            t.exp * 1000 + (clock - now) < kept <= t.exp * 1000 + (clock - now) + 1000
  {
  }

  lemma RememberedLater(r: Room, t: Claims, from: int, clock: int, lo: int)
    requires Remembered(r, t, from, lo) && from <= clock
    ensures Remembered(Expire(r, clock), t, clock, lo)
  {
  }

  /** No step of the store forgets a nonce but a flush. */
  lemma NoncesStay(l: Limits, r: Room, clock: int, op: Op, nonce: Nonce)
    requires !op.Flush? && nonce in r.nonces
    ensures nonce in Apply(l, r, clock, op).nonces && Apply(l, r, clock, op).nonces[nonce] == r.nonces[nonce]
  {
    hide Sids, Place, Without, AddNX, Mark, Touch, Idle, Lapsed, Available, Present, BucketTtl;
  }

  lemma StoreOnce(c: Config, w: World, clock: int, op: Op, t: Claims, lo: int)
    requires SpentOnce(w, t, clock, lo) && !op.Flush?
    ensures SpentOnce(StoreStep(c, w, clock, op), t, clock, lo)
  {
    var out := Output(c.limits, w.room, clock, op);
    var more := if op.Release? && op.sid in w.room.admitted then [SlotFreed(op.sid)] else Facts(out);
    NoUses(more, t);
    UsesConcat(w.log, more, t);
    hide Apply, Output, Facts, Uses;
    if Uses(w.log, t) + w.pending[t] == 1 && t.nonce in w.room.nonces {
      NoncesStay(c.limits, w.room, clock, op, t.nonce);
    }
  }

  /** A verified ticket was in date by a clock that lags at most two milliseconds more than any other,
    so if it was claimed before, its nonce is still there. */
  lemma SpendOnce(c: Config, w: World, clock: int, now: int, token: Presented, owner: Owner, t: Claims, lo: int, hi: int)
    requires SpentOnce(w, t, clock, lo) && now + lo <= clock <= now + hi && hi - lo <= 2
    ensures SpentOnce(SpendStep(c, w, clock, now, token, owner), t, clock, lo)
  {
    NonceOutlives(token.claims, now, clock);
    hide Uses, NonceTtl;
  }

  lemma GrantOnce(c: Config, w: World, clock: int, now: int, ticket: Claims, owner: Owner, nonce: Nonce, t: Claims, lo: int)
    requires SpentOnce(w, t, clock, lo)
    ensures SpentOnce(GrantStep(c, w, clock, now, ticket, owner, nonce), t, clock, lo)
  {
    var pass := Issue(c, ticket.sid, owner, now, c.admittedTtl, nonce, Pass);
    var more := [Redeemed(ticket, pass), Entered(ticket.sid, pass)];
    UsesConcat(w.log, more, t);
    assert more[1..] == [Entered(ticket.sid, pass)];
    NoUses(more[1..], t);
    hide Uses, Issue;
    assert Uses(more, t) == if ticket == t then 1 else 0 by {
      UsesFirst(more, t);
    }
  }

  lemma UsesFirst(log: seq<Fact>, t: Claims)
    requires log != []
    ensures Uses(log, t) == (if log[0].Redeemed? && log[0].ticket == t then 1 else 0) + Uses(log[1..], t)
  {
  }

  lemma NextOnce(c: Config, w: World, h: Happening, t: Claims, from: int, lo: int, hi: int)
    requires SpentOnce(w, t, from, lo) && from <= h.clock && Prompt(lo, hi, [h]) && hi - lo <= 2 && !IsFlush(h)
    ensures SpentOnce(Next(c, w, h), t, h.clock, lo)
  {
    if Uses(w.log, t) + w.pending[t] == 1 {
      RememberedLater(w.room, t, from, h.clock, lo);
    }
    hide StoreStep, MintStep, SpendStep, GrantStep, Uses, Expire, Remembered;
    var x := Tidy(w, h.clock);
    assert SpentOnce(x, t, h.clock, lo) && h in [h];
    match h.act
    case Store(op) => StoreOnce(c, x, h.clock, op, t, lo);
    case Mint(sid, nonce) => MintOnce(c, x, h.clock, h.now, sid, nonce, t, lo);
    case Spend(token, owner) => SpendOnce(c, x, h.clock, h.now, token, owner, t, lo, hi);
    case Grant(ticket, owner, nonce) => GrantOnce(c, x, h.clock, h.now, ticket, owner, nonce, t, lo);
    case Show(token, owner) => LogOnce(x, [Entered(token.claims.sid, token.claims)], t, h.clock, lo);
    case Foreign(_) =>
    case Outage => LogOnce(x, [OpenEntry], t, h.clock, lo);
    case MintOpen(sid, owner, nonce) => LogOnce(x, [OpenTicket(OpenClaims(c, h.now, sid, owner, nonce))], t, h.clock, lo);
  }

  lemma LogOnce(w: World, more: seq<Fact>, t: Claims, clock: int, lo: int)
    requires SpentOnce(w, t, clock, lo) && forall i :: 0 <= i < |more| ==> !more[i].Redeemed?
    ensures SpentOnce(w.(log := w.log + more), t, clock, lo)
  {
    NoUses(more, t);
    UsesConcat(w.log, more, t);
    hide Uses;
  }

  lemma MintOnce(c: Config, w: World, clock: int, now: int, sid: Sid, nonce: Nonce, t: Claims, lo: int)
    requires SpentOnce(w, t, clock, lo)
    ensures SpentOnce(MintStep(c, w, now, sid, nonce), t, clock, lo)
  {
    hide Uses, Issue;
    if sid in w.room.sessions {
      LogOnce(w, [Minted(Issue(c, sid, w.room.sessions[sid].owner, now, c.tokenTtl, nonce, Ticket))], t, clock, lo);
    }
  }

  lemma {:induction false} AfterOnce(c: Config, w: World, hs: seq<Happening>, t: Claims, from: int, lo: int, hi: int)
    requires SpentOnce(w, t, from, lo) && Ordered(from, hs) && Prompt(lo, hi, hs) && hi - lo <= 2
    requires forall h :: h in hs ==> !IsFlush(h)
    ensures Uses(After(c, w, hs).log, t) <= 1
    decreases hs
  {
    if hs != [] {
      hide Next, SpentOnce, Uses;
      assert hs[0] in hs && forall h :: h in hs[1..] ==> h in hs;
      NextOnce(c, w, hs[0], t, from, lo, hi);
      AfterOnce(c, Next(c, w, hs[0]), hs[1..], t, hs[0].clock, lo, hi);
    } else {
      assert Uses(w.log, t) <= 1;
    }
  }

  /** Over every flush-free run on a server's clock that never goes back, with the redeems of any
    number of workers interleaved and nonces expiring, each ticket yields at most one pass, if the
    lags between checks and claims, delays and clocks that disagree included, differ by at most two
    milliseconds. That bound is exact: see `Scenarios.SingleUseExactly`. */
  lemma EachTicketOnePass(c: Config, hs: seq<Happening>, t: Claims, from: int, lo: int, hi: int)
    requires Ordered(from, hs) && Prompt(lo, hi, hs) && hi - lo <= 2
    requires forall h :: h in hs ==> !IsFlush(h)
    ensures Uses(After(c, EMPTY_WORLD, hs).log, t) <= 1
  {
    AfterOnce(c, EMPTY_WORLD, hs, t, from, lo, hi);
  }
}
