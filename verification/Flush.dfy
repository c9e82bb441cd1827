/** Flushing a room: the pattern it scans for, and which keys that pattern matches. */
module Flush {
  // ----- Redis glob patterns

  /** The members of a bracket class, after its "[" and "^": the answer for one character, and what
    follows the closing bracket. An unclosed class extends to the end of the pattern. */
  function InClass(p: string, c: char): (bool, string)
    decreases |p|
  {
    if |p| >= 2 && p[0] == '\\' then
      var (hit, rest) := InClass(p[2..], c);
      (hit || p[1] == c, rest)
    else if p == "" then (false, "")
    else if p[0] == ']' then (false, p[1..])
    else if |p| >= 3 && p[1] == '-' then
      var (hit, rest) := InClass(p[3..], c);
      (hit || p[0] <= c <= p[2] || p[2] <= c <= p[0], rest)
    else
      var (hit, rest) := InClass(p[1..], c);
      (hit || p[0] == c, rest)
  }

  lemma {:induction false} ClassShrinks(p: string, c: char)
    ensures |InClass(p, c).1| <= |p|
    decreases |p|
  {
    if |p| >= 2 && p[0] == '\\' {
      ClassShrinks(p[2..], c);
    } else if p != "" && p[0] != ']' {
      if |p| >= 3 && p[1] == '-' {
        ClassShrinks(p[3..], c);
      } else {
        ClassShrinks(p[1..], c);
      }
    }
  }

  /** Whether the whole of `s` matches the pattern. */
  function Matches(p: string, s: string): bool
    decreases |p|, |s|
  {
    if p == "" then s == ""
    else if p[0] == '*' then Matches(p[1..], s) || (s != "" && Matches(p, s[1..]))
    else if s == "" then false
    else if p[0] == '?' then Matches(p[1..], s[1..])
    else if p[0] == '[' then
      var negated := |p| > 1 && p[1] == '^';
      var (hit, rest) := InClass(if negated then p[2..] else p[1..], s[0]);
      ClassShrinks(if negated then p[2..] else p[1..], s[0]);
      hit != negated && Matches(rest, s[1..])
    else if p[0] == '\\' && |p| >= 2 then p[1] == s[0] && Matches(p[2..], s[1..])
    else p[0] == s[0] && Matches(p[1..], s[1..])
  }

  // ----- the escape

  predicate Special(c: char) {
    c == '*' || c == '?' || c == '[' || c == ']' || c == '\\'
  }

  function GlobEscape(text: string): string {
    if text == "" then ""
    else (if Special(text[0]) then ['\\', text[0]] else [text[0]]) + GlobEscape(text[1..])
  }

  lemma {:induction false} StarMatchesAll(s: string)
    ensures Matches("*", s)
  {
    assert "*"[1..] == "";
    if s != "" {
      StarMatchesAll(s[1..]);
    }
  }

  /** For every text, its escape followed by "*" matches exactly the keys that start with it. */
  lemma {:induction false} EscapedMatchesPrefix(text: string, key: string)
    ensures Matches(GlobEscape(text) + "*", key) <==> text <= key
  {
    if text == "" {
      assert GlobEscape(text) + "*" == "*";
      StarMatchesAll(key);
    } else {
      var p, q := GlobEscape(text) + "*", GlobEscape(text[1..]) + "*";
      if Special(text[0]) {
        assert p == ['\\', text[0]] + q;
        assert p[2..] == q;
      } else {
        assert p == [text[0]] + q;
        assert p[1..] == q;
      }
      if key != "" {
        EscapedMatchesPrefix(text[1..], key[1..]);
        assert text <= key <==> text[0] == key[0] && text[1..] <= key[1..] by {
          assert text == [text[0]] + text[1..];
          assert key == [key[0]] + key[1..];
        }
      }
    }
  }

  // ----- the keys of a room

  function StripColons(prefix: string): string {
    if prefix != "" && prefix[|prefix| - 1] == ':' then StripColons(prefix[..|prefix| - 1]) else prefix
  }

  function RoomNs(prefix: string, room: string): string {
    prefix + ":{" + room + "}"
  }

  /** A key of the storage backend: "queue", "seen", "session:..." and so on. */
  function StoreKey(configured: string, room: string, rest: string): string {
    RoomNs(StripColons(configured), room) + ":" + rest
  }

  /** The signer builds its nonce keys from the prefix as configured. */
  function NonceKey(configured: string, room: string, nonce: string): string {
    configured + ":{" + room + "}:nonce:" + nonce
  }

  function FlushPattern(configured: string, room: string): string {
    GlobEscape(RoomNs(StripColons(configured), room) + ":") + "*"
  }

  /** A flush takes every key the backend wrote for the room. */
  lemma FlushHitsItsRoom(configured: string, room: string, rest: string)
    ensures Matches(FlushPattern(configured, room), StoreKey(configured, room, rest))
  {
    EscapedMatchesPrefix(RoomNs(StripColons(configured), room) + ":", StoreKey(configured, room, rest));
  }

  lemma FirstBrace(a: string, x: string)
    requires '}' !in a
    ensures var s := a + "}" + x;
            |a| < |s| && s[|a|] == '}' && s[..|a|] == a && forall i :: 0 <= i < |a| ==> s[i] != '}'
  {
    forall i | 0 <= i < |a| ensures (a + "}" + x)[i] != '}' {
      assert a[i] in a;
    }
  }

  /** Two texts without "}", each followed by "}", agree when one line starts with the other. */
  lemma BraceEnds(a: string, b: string, x: string, y: string)
    requires '}' !in a && '}' !in b
    requires a + "}" + x <= b + "}" + y
    ensures a == b
  {
    FirstBrace(a, x);
    FirstBrace(b, y);
    var s, t := a + "}" + x, b + "}" + y;
    assert forall i :: 0 <= i < |s| ==> s[i] == t[i];
    assert |a| == |b|;
    assert s[..|a|] == t[..|a|];
  }

  /** Exactly: a flush of a room takes the key of any room, also another one, if and only if what
    follows the opening brace in the key starts with the name of the flushed room, a closing brace
    and a colon. */
  lemma FlushHitsExactly(configured: string, room: string, other: string, rest: string)
    ensures Matches(FlushPattern(configured, room), StoreKey(configured, other, rest))
       <==> room + "}:" <= other + "}:" + rest
  {
    var ns := StripColons(configured) + ":{";
    var text, key := RoomNs(StripColons(configured), room) + ":", StoreKey(configured, other, rest);
    EscapedMatchesPrefix(text, key);
    assert text == ns + (room + "}:") && key == ns + (other + "}:" + rest);
    SamePrefix(ns, room + "}:", other + "}:" + rest);
  }

  lemma SamePrefix(ns: string, x: string, y: string)
    ensures ns + x <= ns + y <==> x <= y
  {
    assert (ns + x)[|ns|..] == x && (ns + y)[|ns|..] == y;
    if ns + x <= ns + y {
      assert forall i :: 0 <= i < |x| ==> x[i] == (ns + x)[|ns| + i] == (ns + y)[|ns| + i] == y[i];
    }
  }

  /** No key suffix of the backend holds a closing brace, so it is a matter of the names alone: a
    flush takes keys of another room if and only if that room's name starts with the flushed name,
    a closing brace and a colon; and then it takes all of them. */
  lemma FlushHitsRooms(configured: string, room: string, other: string, rest: string)
    requires '}' !in rest
    ensures Matches(FlushPattern(configured, room), StoreKey(configured, other, rest))
       <==> room == other || room + "}:" <= other
  {
    FlushHitsExactly(configured, room, other, rest);
    var x, y := room + "}:", other + "}:" + rest;
    if room == other {
      assert y == x + rest;
    } else if x <= other {
      assert y == x + (other[|x|..] + "}:" + rest);
    } else if x <= y {
      BraceWithin(room, other, rest);
    }
  }

  lemma BraceWithin(room: string, other: string, rest: string)
    requires '}' !in rest && room + "}:" <= other + "}:" + rest
    ensures room == other || room + "}:" <= other
  {
    var x, y := room + "}:", other + "}:" + rest;
    assert y[|room|] == x[|room|] == '}' && y[|room| + 1] == x[|room| + 1] == ':';
    assert y[|other|] == '}' && y[|other| + 1] == ':';
    forall i | |other| + 2 <= i < |y| ensures y[i] != '}' {
      assert y[i] == rest[i - |other| - 2] && y[i] in rest;
    }
    assert room == y[..|room|] && other == y[..|other|];
    if |room| + 2 <= |other| {
      assert x == y[..|x|];
    }
  }

  /** For room names without "}", a flush takes no key of another room. */
  lemma FlushSparesOtherRooms(configured: string, room: string, other: string, rest: string)
    requires '}' !in room && '}' !in other && room != other
    ensures !Matches(FlushPattern(configured, room), StoreKey(configured, other, rest))
  {
    FlushHitsExactly(configured, room, other, rest);
    if room + "}:" <= other + "}:" + rest {
      assert room + "}:" == room + "}" + ":" && other + "}:" + rest == other + "}" + (":" + rest);
      BraceEnds(room, other, ":", ":" + rest);
    }
  }

  /** If a name continues another one by a closing brace and a colon, the rooms are confused, whatever
    the key. */
  lemma BracesConfuseRooms(configured: string, room: string, tail: string, rest: string)
    ensures Matches(FlushPattern(configured, room), StoreKey(configured, room + "}:" + tail, rest))
  {
    FlushHitsExactly(configured, room, room + "}:" + tail, rest);
    assert room + "}:" + tail + "}:" + rest == room + "}:" + (tail + "}:" + rest);
  }

  lemma {:induction false} StripColonsIsPrefix(s: string)
    ensures StripColons(s) <= s
    ensures forall i :: |StripColons(s)| <= i < |s| ==> s[i] == ':'
    ensures StripColons(s) == s <==> s == "" || s[|s| - 1] != ':'
  {
    if s != "" && s[|s| - 1] == ':' {
      StripColonsIsPrefix(s[..|s| - 1]);
    }
  }

  /** A flush takes the nonces along if and only if the configured prefix does not end in a colon:
    the backend strips trailing colons, the signer does not. */
  lemma FlushHitsNonces(configured: string, room: string, nonce: string)
    ensures Matches(FlushPattern(configured, room), NonceKey(configured, room, nonce))
       <==> configured == "" || configured[|configured| - 1] != ':'
  {
    var bare := StripColons(configured);
    var text, key := RoomNs(bare, room) + ":", NonceKey(configured, room, nonce);
    EscapedMatchesPrefix(text, key);
    StripColonsIsPrefix(configured);
    if bare == configured {
      assert key == text + ("nonce:" + nonce);
    } else {
      assert text[|bare|] == ':' && text[|bare| + 1] == '{';
      assert key[|bare| + 1] == if |bare| + 1 < |configured| then configured[|bare| + 1] else ':';
    }
  }
}
