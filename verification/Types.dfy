/** The values one waiting room keeps in Redis.

  Session ids are 32 lower-case hexadecimal digits, so the byte order Redis uses to break
  ties between equal scores is the order of the numbers they denote: a `Sid` is that number.
  Times are integer milliseconds; `Seconds` is the truncation `int(time.time())`.
  A key with a time to live is gone once the server clock has passed its expiry instant. */
module Types {

  datatype Option<+T> = None | Some(value: T)

  type Sid = nat

  type Nonce = nat

  /** The client that created a session: address and user-agent hash. */
  datatype Owner = Owner(ip: string, ua: string)

  datatype Status = Queued | Admitted | Expired | Released

  /** A session hash. */
  datatype Meta = Meta(status: Status, owner: Owner, expireAt: int)

  /** The shared token bucket of a room. */
  datatype Bucket = Bucket(tokens: real, ts: int, expireAt: int)

  /** A queued session, ordered by score. */
  datatype Entry = Entry(sid: Sid, score: real)

  /** Everything stored for one room. */
  datatype Room = Room(
    queue: seq<Entry>,          // sorted set, in (score, sid) order
    seen: map<Sid, int>,        // sorted set: last poll, in seconds
    admitted: map<Sid, int>,    // sorted set: slot deadline, in milliseconds
    sessions: map<Sid, Meta>,   // session hashes
    bucket: Option<Bucket>,     // token bucket hash
    closed: bool,               // kill switch
    nonces: map<Nonce, int>)    // redeemed ticket nonces, with their expiry

  const EMPTY_ROOM := Room([], map[], map[], map[], None, false, map[])

  /** Limits of one room, shared by all its worker processes. `grace` is in milliseconds. */
  datatype Limits = Limits(capacity: int, rate: real, burst: int, grace: int)

  function Max(a: int, b: int): int { if a < b then b else a }

  function Min(a: int, b: int): int { if a < b then a else b }

  function MaxReal(a: real, b: real): real { if a < b then b else a }

  function MinReal(a: real, b: real): real { if a < b then a else b }

  function Ceil(x: real): (c: int)
    ensures c as real - 1.0 < x <= c as real
  {
    -((-x).Floor)
  }

  function Seconds(ms: int): (s: int)
    ensures s * 1000 <= ms < s * 1000 + 1000
  {
    ms / 1000
  }
}
