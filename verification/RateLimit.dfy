/** The fixed-window rate limiter of enqueues. */
module RateLimit {
  import opened Types

  /** A counter key; it always has a time to live. */
  datatype Counter = Counter(count: int, expireAt: int)

  function LiveCounter(s: Option<Counter>, clock: int): Option<Counter> {
    if s.Some? && clock <= s.value.expireAt then s else None
  }

  /** INCR, and EXPIRE on the first hit of a window; an EXPIRE that is not positive deletes the
    key. The answer is the count. */
  function Hit(window: int, s: Option<Counter>, clock: int): (Option<Counter>, int) {
    match LiveCounter(s, clock)
    case Some(k) => (Some(Counter(k.count + 1, k.expireAt)), k.count + 1)
    case None => (if window > 0 then Some(Counter(1, clock + window * 1000)) else None, 1)
  }

  class RedisRateLimiter {
    const limit: int
    const window: int
    var counters: map<string, Counter>

    /** A limit that is not positive is refused. */
    static method Create(limit: int, window: int) returns (limiter: Option<RedisRateLimiter>)
      ensures limiter.Some? <==> limit > 0
      ensures limiter.Some? ==> fresh(limiter.value) && limiter.value.limit == limit
                                && limiter.value.window == window && limiter.value.counters == map[]
    {
      if limit <= 0 {
        return None;
      }
      var made := new RedisRateLimiter(limit, window);
      return Some(made);
    }

    constructor (limit: int, window: int)
      ensures this.limit == limit && this.window == window && counters == map[]
    {
      this.limit, this.window := limit, window;
      counters := map[];
    }

    function Of(key: string): Option<Counter>
      reads this
    {
      if key in counters then Some(counters[key]) else None
    }

    method Acquire(key: string, clock: int) returns (granted: bool)
      modifies this`counters
      ensures Of(key) == Hit(window, old(Of(key)), clock).0
      ensures granted <==> Hit(window, old(Of(key)), clock).1 <= limit
      ensures forall other :: other != key ==> Of(other) == old(Of(other))
    {
      if key in counters && clock > counters[key].expireAt {
        counters := counters - {key};
      }
      var count := 1;
      if key in counters {
        count := counters[key].count + 1;
        counters := counters[key := counters[key].(count := count)];
      } else if window > 0 {
        counters := counters[key := Counter(1, clock + window * 1000)];
      }
      granted := count <= limit;
    }
  }

  // ----- whole runs of hits of one key

  predicate Ascending(times: seq<int>) {
    forall i, j :: 0 <= i < j < |times| ==> times[i] <= times[j]
  }

  /** The grants among the hits in `[a, b)`. */
  function Grants(limit: int, window: int, s: Option<Counter>, times: seq<int>, a: int, b: int): nat
    decreases times
  {
    if times == [] then 0
    else
      var (s', count) := Hit(window, s, times[0]);
      (if count <= limit && a <= times[0] < b then 1 else 0) + Grants(limit, window, s', times[1..], a, b)
  }

  /** The instants at which a hit opens a window; the window lasts up to and including the instant
    `window` seconds later. */
  function Openings(window: int, s: Option<Counter>, times: seq<int>): seq<int>
    decreases times
  {
    if times == [] then []
    else
      (if LiveCounter(s, times[0]).None? then [times[0]] else []) + Openings(window, Hit(window, s, times[0]).0, times[1..])
  }

  /** Each window opens after the one before it is over, and the first after `from`. */
  predicate Disjoint(window: int, openings: seq<int>, from: int) {
    && (forall i :: 0 <= i < |openings| ==> from < openings[i])
    && (forall i, j :: 0 <= i < j < |openings| ==> openings[i] + window * 1000 < openings[j])
  }

  /** Over every run windows are disjoint and never extended: each opens after the one before it,
    and after the one there was at the start, is over. */
  lemma {:induction false} WindowsAreDisjoint(window: int, s: Option<Counter>, times: seq<int>, from: int)
    requires window > 0
    requires if s.Some? then from <= s.value.expireAt else times != [] ==> from < times[0]
    ensures Disjoint(window, Openings(window, s, times), from)
    decreases times
  {
    if times != [] {
      var s' := Hit(window, s, times[0]).0;
      var rest := Openings(window, s', times[1..]);
      if LiveCounter(s, times[0]).None? {
        WindowsAreDisjoint(window, s', times[1..], times[0] + window * 1000);
        assert Openings(window, s, times) == [times[0]] + rest;
      } else {
        WindowsAreDisjoint(window, s', times[1..], from);
        assert Openings(window, s, times) == rest;
      }
    }
  }

  lemma {:induction false} GrantsWithin(limit: int, window: int, k: Counter, times: seq<int>, a: int, b: int)
    requires Ascending(times) && b <= k.expireAt + 1
    ensures Grants(limit, window, Some(k), times, a, b) <= if k.count < limit then limit - k.count else 0
    decreases times
  {
    if times != [] {
      if times[0] < b {
        GrantsWithin(limit, window, k.(count := k.count + 1), times[1..], a, b);
      } else {
        LateHitsDoNotCount(limit, window, Some(k), times, a, b);
      }
    }
  }

  /** Each window, from its first to its last instant, sees at most `limit` grants. */
  lemma {:induction false} WindowGrantsLimit(limit: int, window: int, s: Option<Counter>, times: seq<int>, i: nat)
    requires window > 0 && limit > 0 && Ascending(times) && i < |Openings(window, s, times)|
    ensures var t := Openings(window, s, times)[i];
            Grants(limit, window, s, times, t, t + window * 1000 + 1) <= limit
    decreases times
  {
    var s' := Hit(window, s, times[0]).0;
    var first := LiveCounter(s, times[0]).None?;
    WindowsAreDisjoint(window, s', times[1..], s'.value.expireAt);
    if first && i == 0 {
      GrantsWithin(limit, window, s'.value, times[1..], times[0], times[0] + window * 1000 + 1);
    } else {
      var k := if first then i - 1 else i;
      WindowGrantsLimit(limit, window, s', times[1..], k);
      assert Openings(window, s, times)[i] == Openings(window, s', times[1..])[k];
    }
  }

  function CounterAfter(window: int, s: Option<Counter>, times: seq<int>): Option<Counter>
    decreases times
  {
    if times == [] then s else CounterAfter(window, Hit(window, s, times[0]).0, times[1..])
  }

  /** In every window the first `limit` hits are granted and the others are not: the count a hit
    gets is its number in the window. */
  lemma {:induction false} FirstHitsAreGranted(window: int, s: Option<Counter>, times: seq<int>)
    requires window > 0 && times != [] && Ascending(times) && LiveCounter(s, times[0]).None?
    requires times[|times| - 1] <= times[0] + window * 1000
    ensures Hit(window, CounterAfter(window, s, times[..|times| - 1]), times[|times| - 1]).1 == |times|
    ensures CounterAfter(window, s, times) == Some(Counter(|times|, times[0] + window * 1000))
    decreases |times|
  {
    var n, first := |times|, times[..|times| - 1];
    if n == 1 {
      assert times[1..] == [] && first == [];
    } else {
      FirstHitsAreGranted(window, s, first);
      CounterSnoc(window, s, first, times[n - 1]);
      assert times == first + [times[n - 1]];
    }
  }

  lemma {:induction false} CounterSnoc(window: int, s: Option<Counter>, times: seq<int>, t: int)
    ensures CounterAfter(window, s, times + [t]) == Hit(window, CounterAfter(window, s, times), t).0
    decreases times
  {
    if times == [] {
      assert [] + [t] == [t] && [t][1..] == [];
    } else {
      assert (times + [t])[1..] == times[1..] + [t];
      CounterSnoc(window, Hit(window, s, times[0]).0, times[1..], t);
    }
  }

  /** How many windows of `w` milliseconds cover a span: its length over `w`, rounded up. */
  function Cover(span: int, w: int): (n: nat)
    requires w > 0
    decreases if span > 0 then span else 0
  {
    if span <= 0 then 0 else 1 + Cover(span - w, w)
  }

  lemma {:induction false} CoverIsCeiling(span: nat, w: nat)
    requires w > 0
    ensures (Cover(span, w) - 1) * w < span || Cover(span, w) == 0 == span
    ensures span <= Cover(span, w) * w
    decreases span
  {
    if span > w {
      CoverIsCeiling(span - w, w);
      assert (Cover(span, w) - 1) * w == Cover(span - w, w) * w;
      assert Cover(span, w) * w == Cover(span - w, w) * w + w;
      assert (Cover(span - w, w) - 1) * w == Cover(span - w, w) * w - w;
    } else if span > 0 {
      assert Cover(span, w) == 1;
    }
  }

  lemma {:induction false} CoverMonotone(x: int, y: int, w: int)
    requires w > 0 && x <= y
    ensures Cover(x, w) <= Cover(y, w)
    decreases if y > 0 then y else 0
  {
    if x > 0 {
      CoverMonotone(x - w, y - w, w);
    }
  }

  lemma {:induction false} LateHitsDoNotCount(limit: int, window: int, s: Option<Counter>, times: seq<int>, a: int, b: int)
    requires Ascending(times) && (times != [] ==> times[0] >= b)
    ensures Grants(limit, window, s, times, a, b) == 0
    decreases times
  {
    if times != [] {
      LateHitsDoNotCount(limit, window, Hit(window, s, times[0]).0, times[1..], a, b);
    }
  }

  lemma Times(limit: int, x: int, y: int)
    requires limit >= 0 && x <= y
    ensures limit * x <= limit * y && limit * (x + 1) == limit * x + limit
  {
    assert limit * (y - x) >= 0;
  }

  /** From inside a window that reaches into the span: what is left of it, and the windows after. */
  lemma {:induction false} GrantsInWindow(limit: int, window: int, k: Counter, times: seq<int>, a: int, b: int)
    requires window > 0 && limit > 0 && Ascending(times) && a <= k.expireAt && k.count >= 0
    ensures Grants(limit, window, Some(k), times, a, b)
         <= (if k.count < limit then limit - k.count else 0) + limit * Cover(b - k.expireAt, window * 1000)
    decreases times, 1
  {
    hide Cover;
    Times(limit, 0, Cover(b - k.expireAt, window * 1000));
    if times != [] {
      var t := times[0];
      if t <= k.expireAt {
        GrantsInWindow(limit, window, k.(count := k.count + 1), times[1..], a, b);
      } else {
        GrantsBetweenWindows(limit, window, Some(k), times, t, a, b);
        CoverMonotone(b - t, b - k.expireAt, window * 1000);
        Times(limit, Cover(b - t, window * 1000), Cover(b - k.expireAt, window * 1000));
      }
    }
  }

  /** With no window open from `t` on, inside the span: one window after the other. */
  lemma {:induction false} GrantsBetweenWindows(limit: int, window: int, s: Option<Counter>, times: seq<int>, t: int, a: int, b: int)
    requires window > 0 && limit > 0 && Ascending(times) && times != [] && times[0] == t && a <= t
    requires LiveCounter(s, t).None?
    ensures Grants(limit, window, s, times, a, b) <= limit * Cover(b - t, window * 1000)
    decreases times, 0
  {
    if t >= b {
      LateHitsDoNotCount(limit, window, s, times, a, b);
    } else {
      var k := Counter(1, t + window * 1000);
      GrantsInWindow(limit, window, k, times[1..], a, b);
      var rest := Cover(b - k.expireAt, window * 1000);
      assert Cover(b - t, window * 1000) == rest + 1;
      Times(limit, rest, rest);
    }
  }

  /** Whatever the counter holds and however the hits come, any half-open interval of length L sees
    at most (L / window, rounded up, plus one) times the limit grants. */
  lemma {:induction false} IntervalBound(limit: int, window: int, s: Option<Counter>, times: seq<int>, a: int, b: int)
    requires window > 0 && limit > 0 && Ascending(times) && (s.Some? ==> s.value.count >= 0)
    ensures Grants(limit, window, s, times, a, b) <= limit * (Cover(b - a, window * 1000) + 1)
    decreases times
  {
    var all := Cover(b - a, window * 1000);
    Times(limit, 0, all);
    Times(limit, all, all + 1);
    if times != [] {
      var t := times[0];
      if LiveCounter(s, t).Some? && a <= s.value.expireAt {
        GrantsInWindow(limit, window, s.value, times, a, b);
        CoverMonotone(b - s.value.expireAt, b - a, window * 1000);
        Times(limit, Cover(b - s.value.expireAt, window * 1000), all);
      } else if a <= t {
        GrantsBetweenWindows(limit, window, s, times, t, a, b);
        CoverMonotone(b - t, b - a, window * 1000);
        Times(limit, Cover(b - t, window * 1000), all);
      } else {
        IntervalBound(limit, window, Hit(window, s, t).0, times[1..], a, b);
      }
    }
  }

  /** So no interval as short as the window sees more than twice the limit. */
  lemma TwiceTheLimit(limit: int, window: int, times: seq<int>, a: int, b: int)
    requires window > 0 && limit > 0 && Ascending(times) && b - a <= window * 1000
    ensures Grants(limit, window, None, times, a, b) <= 2 * limit
  {
    IntervalBound(limit, window, None, times, a, b);
    assert Cover(b - a, window * 1000) <= 1;
    Times(limit, Cover(b - a, window * 1000), 1);
  }
}
