/** Runs: any number of workers issue the atomic steps of one room in any order. */
module Runs {
  import opened Types
  import opened Scripts

  datatype Op =
    | Enqueue(sid: Sid, score: real, ttl: int, now: int, owner: Owner, check: bool)
    | Poll(sid: Sid, now: int, ttl: int)
    | Tick(maxN: int, now: int)
    | Hold(sid: Sid, now: int, seconds: int)
    | Remove(sid: Sid)
    | Release(sid: Sid)
    | Reclaim(cutoff: int, now: int)
    | Claim(nonce: Nonce, ex: int)
    | KillSwitch(engaged: bool)
    | Flush

  /** One step, at a time of the Redis server. */
  datatype Event = Event(clock: int, op: Op)

  function Apply(l: Limits, r: Room, clock: int, op: Op): Room {
    match op
    case Enqueue(sid, score, ttl, now, owner, check) => Scripts.Enqueue(r, clock, sid, score, ttl, now, owner, check).0
    case Poll(sid, now, ttl) => Scripts.Poll(r, clock, sid, now, ttl).0
    case Tick(maxN, now) => Scripts.Tick(l, r, clock, maxN, now).0
    case Hold(sid, now, seconds) => Scripts.Hold(r, clock, sid, now, seconds).0
    case Remove(sid) => Scripts.Remove(r, sid).0
    case Release(sid) => Scripts.Release(r, sid).0
    case Reclaim(cutoff, now) => Scripts.Reclaim(r, cutoff, now).0
    case Claim(nonce, ex) => Scripts.Claim(r, clock, nonce, ex).0
    case KillSwitch(engaged) => r.(closed := engaged)
    case Flush => EMPTY_ROOM
  }

  /** The sessions a step returns as admitted. */
  function Output(l: Limits, r: Room, clock: int, op: Op): seq<Sid> {
    if op.Tick? then Scripts.Tick(l, r, clock, op.maxN, op.now).1 else []
  }

  function Step(l: Limits, r: Room, e: Event): Room {
    Apply(l, Expire(r, e.clock), e.clock, e.op)
  }

  function Returned(l: Limits, r: Room, e: Event): seq<Sid> {
    Output(l, Expire(r, e.clock), e.clock, e.op)
  }

  function Run(l: Limits, r: Room, es: seq<Event>): Room
    decreases es
  {
    if es == [] then r else Run(l, Step(l, r, es[0]), es[1..])
  }

  /** Everything returned along a run, in order. */
  function Admissions(l: Limits, r: Room, es: seq<Event>): seq<Sid>
    decreases es
  {
    if es == [] then [] else Returned(l, r, es[0]) + Admissions(l, Step(l, r, es[0]), es[1..])
  }

  /** Server times never go back, starting from `from`. */
  predicate Nondecreasing(from: int, es: seq<Event>)
    decreases es
  {
    es == [] || (from <= es[0].clock && Nondecreasing(es[0].clock, es[1..]))
  }

  /** The caller's clock agrees with the server's; the cutoff of a reclaim is any time. */
  predicate InTime(e: Event) {
    match e.op
    case Enqueue(_, _, _, now, _, _) => now == Seconds(e.clock)
    case Poll(_, now, _) => now == Seconds(e.clock)
    case Tick(_, now) => now == e.clock
    case Hold(_, now, _) => now == e.clock
    case Reclaim(_, now) => now == e.clock
    case _ => true
  }

  /** One nondecreasing clock for all workers and the server. */
  predicate OneClock(from: int, es: seq<Event>) {
    Nondecreasing(from, es) && forall e :: e in es ==> InTime(e)
  }
}
