/** The queue as Redis keeps it: a sorted set, listed in (score, member) order. */
module ZSet {
  import opened Types

  predicate Before(a: Entry, b: Entry) {
    a.score < b.score || (a.score == b.score && a.sid < b.sid)
  }

  ghost predicate Sorted(q: seq<Entry>) {
    forall i, j :: 0 <= i < j < |q| ==> Before(q[i], q[j])
  }

  ghost predicate Distinct(q: seq<Entry>) {
    forall i, j :: 0 <= i < j < |q| ==> q[i].sid != q[j].sid
  }

  ghost predicate Valid(q: seq<Entry>) {
    Sorted(q) && Distinct(q)
  }

  function Sids(q: seq<Entry>): set<Sid> {
    if q == [] then {} else {q[0].sid} + Sids(q[1..])
  }

  lemma {:induction false} SidsAre(q: seq<Entry>)
    ensures forall e :: e in q ==> e.sid in Sids(q)
    ensures forall s :: s in Sids(q) ==> exists i :: 0 <= i < |q| && q[i].sid == s
  {
    if q != [] {
      SidsAre(q[1..]);
      forall s | s in Sids(q) ensures exists i :: 0 <= i < |q| && q[i].sid == s {
        if s == q[0].sid {
        } else {
          var i :| 0 <= i < |q[1..]| && q[1..][i].sid == s;
          assert q[i + 1].sid == s;
        }
      }
    }
  }

  /** ZRANK: the number of entries listed before the member (the length if it is absent). */
  function Place(q: seq<Entry>, sid: Sid): (p: nat)
    ensures p <= |q|
    ensures sid in Sids(q) <==> p < |q|
    ensures p < |q| ==> q[p].sid == sid
    ensures forall i :: 0 <= i < p ==> q[i].sid != sid
  {
    if q == [] || q[0].sid == sid then 0
    else
      1 + Place(q[1..], sid)
  }

  /** Where a new entry goes: after everything that is not after it. */
  function InsertPoint(q: seq<Entry>, e: Entry): (k: nat)
    ensures k <= |q|
    ensures forall i :: 0 <= i < k ==> !Before(e, q[i])
    ensures k < |q| ==> Before(e, q[k])
  {
    if q == [] || Before(e, q[0]) then 0 else 1 + InsertPoint(q[1..], e)
  }

  function Insert(q: seq<Entry>, e: Entry): seq<Entry> {
    var k := InsertPoint(q, e);
    q[..k] + [e] + q[k..]
  }

  /** ZADD NX: a member that is already present keeps its score. */
  function AddNX(q: seq<Entry>, e: Entry): seq<Entry> {
    if e.sid in Sids(q) then q else Insert(q, e)
  }

  /** ZREM of a set of members. */
  function Without(q: seq<Entry>, gone: set<Sid>): seq<Entry> {
    if q == [] then []
    else if q[0].sid in gone then Without(q[1..], gone)
    else [q[0]] + Without(q[1..], gone)
  }

  lemma {:induction false} SidsConcat(a: seq<Entry>, b: seq<Entry>)
    ensures Sids(a + b) == Sids(a) + Sids(b)
  {
    if a == [] {
      assert a + b == b;
    } else {
      assert (a + b)[1..] == a[1..] + b;
      SidsConcat(a[1..], b);
    }
  }

  lemma InsertSids(q: seq<Entry>, e: Entry)
    ensures Sids(Insert(q, e)) == Sids(q) + {e.sid}
  {
    var k := InsertPoint(q, e);
    assert q == q[..k] + q[k..];
    SidsConcat(q[..k], q[k..]);
    SidsConcat(q[..k] + [e], q[k..]);
    SidsConcat(q[..k], [e]);
  }

  lemma InsertSorted(q: seq<Entry>, e: Entry)
    requires Sorted(q) && e.sid !in Sids(q)
    ensures Sorted(Insert(q, e))
  {
    SidsAre(q);
    var k := InsertPoint(q, e);
    var r := Insert(q, e);
    forall i, j | 0 <= i < j < |r|
      ensures Before(r[i], r[j])
    {
      if j == k {
        assert q[i] in q;
      } else if i == k {
        assert Before(e, q[k]) && (j == k + 1 || Before(q[k], q[j - 1]));
      }
    }
  }

  lemma InsertDistinct(q: seq<Entry>, e: Entry)
    requires Distinct(q) && e.sid !in Sids(q)
    ensures Distinct(Insert(q, e))
  {
    SidsAre(q);
    var k := InsertPoint(q, e);
    var r := Insert(q, e);
    forall i | 0 <= i < |q| ensures q[i].sid != e.sid {
      assert q[i] in q;
    }
  }

  lemma {:induction false} WithoutMembers(q: seq<Entry>, gone: set<Sid>)
    ensures forall e :: e in Without(q, gone) <==> e in q && e.sid !in gone
    ensures Sids(Without(q, gone)) == Sids(q) - gone
  {
    if q != [] {
      WithoutMembers(q[1..], gone);
    }
  }

  lemma {:induction false} WithoutValid(q: seq<Entry>, gone: set<Sid>)
    requires Valid(q)
    ensures Valid(Without(q, gone))
  {
    if q != [] {
      WithoutValid(q[1..], gone);
      WithoutMembers(q[1..], gone);
      var r := Without(q[1..], gone);
      forall e | e in r ensures Before(q[0], e) && q[0].sid != e.sid {
        assert e in q[1..];
      }
    }
  }

  /** Removing members never moves the others back. */
  lemma {:induction false} WithoutPlace(q: seq<Entry>, gone: set<Sid>, sid: Sid)
    requires sid !in gone
    ensures Place(Without(q, gone), sid) <= Place(q, sid)
  {
    if q != [] && q[0].sid != sid {
      WithoutPlace(q[1..], gone, sid);
    }
  }

  /** Popping a prefix moves everyone else forward by its length. */
  lemma {:induction false} PlaceAfterPop(q: seq<Entry>, n: nat, sid: Sid)
    requires n <= |q|
    requires n <= Place(q, sid)
    ensures Place(q[n..], sid) == Place(q, sid) - n
  {
    if n > 0 {
      PlaceAfterPop(q[1..], n - 1, sid);
      assert q[1..][n - 1..] == q[n..];
    }
  }

  /** In a valid queue a member's place counts exactly the entries before it. */
  lemma PlaceIs(q: seq<Entry>, i: nat)
    requires Distinct(q) && i < |q|
    ensures Place(q, q[i].sid) == i
  {
    SidsAre(q);
    assert q[i] in q;
  }

  lemma PopValid(q: seq<Entry>, n: nat)
    requires Valid(q) && n <= |q|
    ensures Valid(q[n..])
  {
  }

  lemma PopSids(q: seq<Entry>, n: nat)
    requires Distinct(q) && n <= |q|
    ensures Sids(q[n..]) == Sids(q) - Sids(q[..n])
    ensures |Sids(q[..n])| == n
  {
    assert q == q[..n] + q[n..];
    SidsConcat(q[..n], q[n..]);
    SidsAre(q[..n]);
    SidsAre(q[n..]);
    forall s | s in Sids(q[n..]) ensures s !in Sids(q[..n]) {
      var j :| 0 <= j < |q| - n && q[n..][j].sid == s;
      assert q[n + j].sid == s;
    }
    DistinctSize(q[..n]);
  }

  lemma {:induction false} DistinctSize(q: seq<Entry>)
    requires Distinct(q)
    ensures |Sids(q)| == |q|
  {
    if q != [] {
      DistinctSize(q[1..]);
      SidsAre(q[1..]);
      assert q[0].sid !in Sids(q[1..]);
    }
  }

  /** An entry whose score exceeds every queued one goes to the back. */
  lemma FreshGoesLast(q: seq<Entry>, e: Entry)
    requires forall x :: x in q ==> x.score < e.score
    ensures Insert(q, e) == q + [e]
  {
    forall i | 0 <= i < |q| ensures !Before(e, q[i]) {
      assert q[i] in q;
    }
  }
}
