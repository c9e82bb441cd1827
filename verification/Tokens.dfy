/** Tokens as text: base64url without padding, payload and signature joined by a dot.

  Bytes to characters follow section 5 of RFC 4648; the padding that is stripped and put back is
  that of its section 3.2. The payload codec and the keyed hash are parameters. */
module Tokens {
  import opened Types
  import opened Exchange

  type Byte = x: int | 0 <= x < 256

  type Bytes = seq<Byte>

  // ----- characters

  function Digit(v: int): (c: char)
    requires 0 <= v < 64
    ensures c != '=' && c != '.' && c as int < 128
  {
    if v < 26 then 'A' + v as char
    else if v < 52 then 'a' + (v - 26) as char
    else if v < 62 then '0' + (v - 52) as char
    else if v == 62 then '-' else '_'
  }

  /** The decoder maps "-" and "_" to "+" and "/" first, so it takes all four. */
  function Value(c: char): (v: Option<int>)
    ensures v.Some? ==> 0 <= v.value < 64
  {
    if 'A' <= c <= 'Z' then Some(c as int - 'A' as int)
    else if 'a' <= c <= 'z' then Some(c as int - 'a' as int + 26)
    else if '0' <= c <= '9' then Some(c as int - '0' as int + 52)
    else if c == '-' || c == '+' then Some(62)
    else if c == '_' || c == '/' then Some(63)
    else None
  }

  lemma ValueOfDigit(v: int)
    requires 0 <= v < 64
    ensures Value(Digit(v)) == Some(v)
  {
  }

  // ----- encoding

  function EncodePadded(b: Bytes): string {
    if |b| == 0 then ""
    else if |b| == 1 then [Digit(b[0] / 4), Digit(b[0] % 4 * 16), '=', '=']
    else if |b| == 2 then [Digit(b[0] / 4), Digit(b[0] % 4 * 16 + b[1] / 16), Digit(b[1] % 16 * 4), '=']
    else [Digit(b[0] / 4), Digit(b[0] % 4 * 16 + b[1] / 16), Digit(b[1] % 16 * 4 + b[2] / 64), Digit(b[2] % 64)]
         + EncodePadded(b[3..])
  }

  function StripPadding(s: string): string {
    if s != [] && s[|s| - 1] == '=' then StripPadding(s[..|s| - 1]) else s
  }

  function Encode(b: Bytes): string { StripPadding(EncodePadded(b)) }

  // ----- decoding

  /** The decoder of Python's `base64` module after `quad` characters of a group, with `left` bits
    over: it skips what is outside the alphabet, and stops at a complete padding. */
  function Scan(s: string, quad: int, left: int, pads: nat): Option<Bytes>
    requires 0 <= quad < 4 && 0 <= left
    requires quad == 1 ==> left < 64
    requires quad == 2 ==> left < 16
    requires quad == 3 ==> left < 4
  {
    if s == [] then if quad == 0 then Some([]) else None
    else if s[0] == '=' then
      if quad >= 2 && quad + pads + 1 >= 4 then Some([])
      else Scan(s[1..], quad, left, if quad >= 2 then pads + 1 else pads)
    else
      match Value(s[0])
      case None => Scan(s[1..], quad, left, pads)
      case Some(v) =>
        if quad == 0 then Scan(s[1..], 1, v, 0)
        else if quad == 1 then Put(left * 4 + v / 16, Scan(s[1..], 2, v % 16, 0))
        else if quad == 2 then Put(left * 16 + v / 4, Scan(s[1..], 3, v % 4, 0))
        else Put(left * 64 + v, Scan(s[1..], 0, 0, 0))
  }

  function Put(b: Byte, rest: Option<Bytes>): Option<Bytes> {
    if rest.Some? then Some([b] + rest.value) else None
  }

  predicate Ascii(s: string) {
    forall c :: c in s ==> c as int < 128
  }

  function Padding(n: nat): string {
    if n == 0 then "" else "=" + Padding(n - 1)
  }

  /** Padding is put back to a multiple of four; text outside ASCII is refused. */
  function Decode(s: string): Option<Bytes> {
    if Ascii(s) then Scan(s + Padding((4 - |s| % 4) % 4), 0, 0, 0) else None
  }

  // ----- the round trip

  /** The encoding with its padding taken apart. */
  function Bare(b: Bytes): (s: string)
    ensures '=' !in s && '.' !in s && Ascii(s)
  {
    if |b| == 0 then ""
    else if |b| == 1 then [Digit(b[0] / 4), Digit(b[0] % 4 * 16)]
    else if |b| == 2 then [Digit(b[0] / 4), Digit(b[0] % 4 * 16 + b[1] / 16), Digit(b[1] % 16 * 4)]
    else
      var group := [Digit(b[0] / 4), Digit(b[0] % 4 * 16 + b[1] / 16), Digit(b[1] % 16 * 4 + b[2] / 64), Digit(b[2] % 64)];
      group + Bare(b[3..])
  }

  lemma {:induction false} PaddedIsBare(b: Bytes)
    ensures EncodePadded(b) == Bare(b) + Padding((4 - |Bare(b)| % 4) % 4)
  {
    hide Digit;
    if |b| == 0 {
    } else if |b| <= 2 {
      assert Padding(2) == "=" + Padding(1) && Padding(1) == "=" + Padding(0);
    } else {
      hide Padding;
      PaddedIsBare(b[3..]);
      PadsAlike(|Bare(b[3..])|);
      var group := [Digit(b[0] / 4), Digit(b[0] % 4 * 16 + b[1] / 16), Digit(b[1] % 16 * 4 + b[2] / 64), Digit(b[2] % 64)];
      assert Bare(b) == group + Bare(b[3..]) && EncodePadded(b) == group + EncodePadded(b[3..]);
    }
  }

  lemma PadsAlike(n: nat)
    ensures (4 - (4 + n) % 4) % 4 == (4 - n % 4) % 4
  {
  }

  lemma {:induction false} StripsAll(s: string, n: nat)
    requires '=' !in s
    ensures StripPadding(s + Padding(n)) == s
  {
    if n == 0 {
      assert s + Padding(0) == s;
      if s != [] {
        assert s[|s| - 1] in s;
      }
    } else {
      PaddingEnds(n);
      assert (s + Padding(n))[..|s + Padding(n)| - 1] == s + Padding(n - 1);
      StripsAll(s, n - 1);
    }
  }

  lemma {:induction false} PaddingEnds(n: nat)
    requires n > 0
    ensures |Padding(n)| == n && Padding(n) == Padding(n - 1) + "="
  {
    if n > 1 {
      PaddingEnds(n - 1);
    }
  }

  lemma EncodeIsBare(b: Bytes)
    ensures Encode(b) == Bare(b)
  {
    PaddedIsBare(b);
    StripsAll(Bare(b), (4 - |Bare(b)| % 4) % 4);
  }

  /** Four characters of a full group give its three bytes. */
  lemma ScanGroup(x: Byte, y: Byte, z: Byte, rest: string)
    ensures Scan([Digit(x / 4), Digit(x % 4 * 16 + y / 16), Digit(y % 16 * 4 + z / 64), Digit(z % 64)] + rest, 0, 0, 0)
         == Put(x, Put(y, Put(z, Scan(rest, 0, 0, 0))))
  {
    var p, q, r, s := x / 4, x % 4 * 16 + y / 16, y % 16 * 4 + z / 64, z % 64;
    ValueOfDigit(p);
    ValueOfDigit(q);
    ValueOfDigit(r);
    ValueOfDigit(s);
    GroupBits(x, y, z);
    hide Digit, Value, Scan;
    var t := [Digit(p), Digit(q), Digit(r), Digit(s)] + rest;
    assert t[1..] == [Digit(q), Digit(r), Digit(s)] + rest;
    assert t[1..][1..] == [Digit(r), Digit(s)] + rest;
    assert t[1..][1..][1..] == [Digit(s)] + rest;
    assert t[1..][1..][1..][1..] == rest;
    ScanDigit(t, p, 0, 0);
    ScanDigit(t[1..], q, 1, p);
    ScanDigit(t[1..][1..], r, 2, q % 16);
    ScanDigit(t[1..][1..][1..], s, 3, r % 4);
  }

  lemma GroupBits(x: Byte, y: Byte, z: Byte)
    ensures var p, q, r, s := x / 4, x % 4 * 16 + y / 16, y % 16 * 4 + z / 64, z % 64;
            && 0 <= p < 64 && 0 <= q < 64 && 0 <= r < 64 && 0 <= s < 64
            && p * 4 + q / 16 == x && q % 16 * 16 + r / 4 == y && r % 4 * 64 + s == z
  {
  }

  /** One step of the scan on a character of the alphabet. */
  lemma ScanDigit(s: string, v: int, quad: int, left: int)
    requires s != [] && 0 <= v < 64 && s[0] == Digit(v) && 0 <= quad < 4 && 0 <= left
    requires quad == 1 ==> left < 64
    requires quad == 2 ==> left < 16
    requires quad == 3 ==> left < 4
    ensures Scan(s, quad, left, 0) ==
      if quad == 0 then Scan(s[1..], 1, v, 0)
      else if quad == 1 then Put(left * 4 + v / 16, Scan(s[1..], 2, v % 16, 0))
      else if quad == 2 then Put(left * 16 + v / 4, Scan(s[1..], 3, v % 4, 0))
      else Put(left * 64 + v, Scan(s[1..], 0, 0, 0))
  {
    ValueOfDigit(v);
    hide Digit, Value;
  }

  lemma ScanOne(x: Byte)
    ensures Scan([Digit(x / 4), Digit(x % 4 * 16), '=', '='], 0, 0, 0) == Some([x])
  {
    var t := [Digit(x / 4), Digit(x % 4 * 16), '=', '='];
    assert x / 4 * 4 + x % 4 * 16 / 16 == x && x % 4 * 16 % 16 == 0;
    assert t[1..] == [Digit(x % 4 * 16), '=', '='] && t[1..][1..] == ['=', '='];
    assert Scan(['=', '='], 2, 0, 0) == Some([]) by {
      assert ['=', '='][1..] == ['='];
      assert Scan(['='], 2, 0, 1) == Some([]);
    }
    hide Digit, Scan;
    ScanDigit(t, x / 4, 0, 0);
    ScanDigit(t[1..], x % 4 * 16, 1, x / 4);
    assert [x] + [] == [x];
  }

  lemma ScanTwo(x: Byte, y: Byte)
    ensures Scan([Digit(x / 4), Digit(x % 4 * 16 + y / 16), Digit(y % 16 * 4), '='], 0, 0, 0) == Some([x, y])
  {
    var p, q, r := x / 4, x % 4 * 16 + y / 16, y % 16 * 4;
    var t := [Digit(p), Digit(q), Digit(r), '='];
    assert p * 4 + q / 16 == x && q % 16 * 16 + r / 4 == y && r % 4 == 0;
    assert t[1..] == [Digit(q), Digit(r), '='] && t[1..][1..] == [Digit(r), '='] && t[1..][1..][1..] == ['='];
    assert Scan(['='], 3, 0, 0) == Some([]);
    hide Digit, Scan;
    ScanDigit(t, p, 0, 0);
    ScanDigit(t[1..], q, 1, p);
    ScanDigit(t[1..][1..], r, 2, q % 16);
    assert [y] + [] == [y] && [x] + [y] == [x, y];
  }

  lemma {:induction false} ScanPadded(b: Bytes)
    ensures Scan(EncodePadded(b), 0, 0, 0) == Some(b)
  {
    if |b| == 0 {
    } else if |b| == 1 {
      ScanOne(b[0]);
      assert b == [b[0]];
    } else if |b| == 2 {
      ScanTwo(b[0], b[1]);
      assert b == [b[0], b[1]];
    } else {
      hide Digit, Scan;
      ScanGroup(b[0], b[1], b[2], EncodePadded(b[3..]));
      ScanPadded(b[3..]);
      assert b == [b[0]] + ([b[1]] + ([b[2]] + b[3..]));
    }
  }

  const UPPER := "ABCDEFGHIJKLMNOPQRSTUVWXYZ"
  const LOWER := "abcdefghijklmnopqrstuvwxyz"
  const FIGURES := "0123456789"

  /** The alphabet of table 2 of RFC 4648. */
  const ALPHABET := UPPER + LOWER + FIGURES + "-_"

  lemma DigitSpells(v: int)
    requires 0 <= v < 64
    ensures |ALPHABET| == 64 && Digit(v) == ALPHABET[v]
  {
    assert v < 26 ==> ALPHABET[v] == UPPER[v];
    assert 26 <= v < 52 ==> ALPHABET[v] == LOWER[v - 26];
    assert 52 <= v < 62 ==> ALPHABET[v] == FIGURES[v - 52];
    assert 62 <= v ==> ALPHABET[v] == "-_"[v - 62];
  }

  /** The text spells these numbers as digits. */
  predicate Spells(text: string, v: seq<int>) {
    |ALPHABET| == 64 && |text| == |v| && forall i :: 0 <= i < |v| ==> 0 <= v[i] < 64 && text[i] == ALPHABET[v[i]]
  }

  /** The number that some bytes make, the highest first. */
  function Number(b: Bytes): int {
    if b == [] then 0 else Number(b[..|b| - 1]) * 256 + b[|b| - 1]
  }

  /** The encoding is base64url: three bytes, read as one number, give four digits of six bits, the
    highest first; one or two bytes at the end give two or three, filled up with zero bits. */
  lemma EncodesSixBitDigits(b: Bytes) returns (v: seq<int>)
    ensures |b| == 0 ==> Encode(b) == ""
    ensures |b| == 1 ==> Spells(Encode(b), v) && |v| == 2 && v[0] * 64 + v[1] == Number(b) * 16
    ensures |b| == 2 ==> Spells(Encode(b), v) && |v| == 3 && (v[0] * 64 + v[1]) * 64 + v[2] == Number(b) * 4
    ensures |b| >= 3 ==> |Encode(b)| >= 4 && Spells(Encode(b)[..4], v) && Encode(b)[4..] == Encode(b[3..])
                         && ((v[0] * 64 + v[1]) * 64 + v[2]) * 64 + v[3] == Number(b[..3])
  {
    EncodeIsBare(b);
    if |b| == 0 {
      v := [];
    } else if |b| <= 2 {
      v := if |b| == 1 then [b[0] / 4, b[0] % 4 * 16] else [b[0] / 4, b[0] % 4 * 16 + b[1] / 16, b[1] % 16 * 4];
      NumberOf(b);
      Spelled(Encode(b), v);
    } else {
      v := [b[0] / 4, b[0] % 4 * 16 + b[1] / 16, b[1] % 16 * 4 + b[2] / 64, b[2] % 64];
      NumberOf(b[..3]);
      EncodeIsBare(b[3..]);
      assert Encode(b) == [Digit(v[0]), Digit(v[1]), Digit(v[2]), Digit(v[3])] + Encode(b[3..]);
      Spelled(Encode(b)[..4], v);
    }
  }

  lemma NumberOf(b: Bytes)
    requires 0 < |b| <= 3
    ensures |b| == 1 ==> Number(b) == b[0]
    ensures |b| == 2 ==> Number(b) == (b[0] as int) * 256 + b[1] as int
    ensures |b| == 3 ==> Number(b) == ((b[0] as int) * 256 + b[1] as int) * 256 + b[2] as int
  {
    assert |b| == 3 ==> b[..2][..1] == b[..1];
    assert Number(b[..0]) == 0 && Number(b[..1]) == b[0];
  }

  lemma Spelled(text: string, v: seq<int>)
    requires |text| == |v| && forall i :: 0 <= i < |v| ==> 0 <= v[i] < 64 && text[i] == Digit(v[i])
    ensures Spells(text, v)
  {
    hide Digit;
    DigitSpells(0);
    forall i | 0 <= i < |v| ensures Digit(v[i]) == ALPHABET[v[i]] {
      DigitSpells(v[i]);
    }
  }

  /** For every byte string, decoding the unpadded base64url form gives it back. */
  lemma Base64RoundTrip(b: Bytes)
    ensures Decode(Encode(b)) == Some(b)
  {
    EncodeIsBare(b);
    PaddedIsBare(b);
    ScanPadded(b);
  }

  // ----- tokens

  /** The keyed hash and the payload codec of a signer. */
  datatype Signer = Signer(mac: Bytes -> Bytes, encode: Claims -> Bytes, decode: Bytes -> Option<Claims>)

  const MAX_TOKEN_LEN := 1024

  /** Python's `split(".", 1)` unpacked into two. */
  function SplitDot(s: string): Option<(string, string)> {
    if s == [] then None
    else if s[0] == '.' then Some(("", s[1..]))
    else
      match SplitDot(s[1..])
      case None => None
      case Some((a, b)) => Some(([s[0]] + a, b))
  }

  lemma {:induction false} SplitsAtDot(a: string, b: string)
    requires '.' !in a
    ensures SplitDot(a + "." + b) == Some((a, b))
  {
    if a == [] {
      assert a + "." + b == "." + b;
    } else {
      assert (a + "." + b)[1..] == a[1..] + "." + b;
      assert (a + "." + b)[0] == a[0] && a[0] in a;
      SplitsAtDot(a[1..], b);
      assert [a[0]] + a[1..] == a;
    }
  }

  function Sign(k: Signer, claims: Claims): string {
    var payload := k.encode(claims);
    Encode(payload) + "." + Encode(k.mac(payload))
  }

  /** What a token text presents: its claims, and whether its signature is the one of its payload.
    Anything malformed is not genuine. */
  function Read(k: Signer, text: string): Option<Claims> {
    if |text| > MAX_TOKEN_LEN then None
    else
      match SplitDot(text)
      case None => None
      case Some((payload64, sig64)) =>
        var payload, sig := Decode(payload64), Decode(sig64);
        if payload.None? || sig.None? || sig.value != k.mac(payload.value) then None
        else k.decode(payload.value)
  }

  function VerifyText(k: Signer, c: Config, text: string, owner: Owner, now: int, purpose: Purpose): Option<Claims> {
    match Read(k, text)
    case None => None
    case Some(claims) => if Verify(c, Presented(claims, true), owner, now, purpose) == Accepted then Some(claims) else None
  }

  ghost predicate Lossless(k: Signer) {
    forall claims :: k.decode(k.encode(claims)) == Some(claims)
  }

  lemma SignedTextReadsBack(k: Signer, claims: Claims)
    requires Lossless(k) && |Sign(k, claims)| <= MAX_TOKEN_LEN
    ensures Read(k, Sign(k, claims)) == Some(claims)
  {
    var payload := k.encode(claims);
    EncodeIsBare(payload);
    SplitsAtDot(Encode(payload), Encode(k.mac(payload)));
    Base64RoundTrip(payload);
    Base64RoundTrip(k.mac(payload));
  }

  // ----- texts that are refused

  /** The text is a payload and its keyed hash, both in base64url, joined by the first dot in it. */
  ghost predicate Signed(k: Signer, text: string, a: string, b: string, claims: Claims) {
    && text == a + "." + b && '.' !in a
    && Decode(a).Some? && Decode(b) == Some(k.mac(Decode(a).value))
    && k.decode(Decode(a).value) == Some(claims)
  }

  /** Reading a text gives claims exactly if it is not too long and signed. */
  lemma ReadsSignedOnly(k: Signer, text: string, claims: Claims)
    ensures Read(k, text) == Some(claims) <==> |text| <= 1024 && exists a, b :: Signed(k, text, a, b, claims)
  {
    SplitRejoins(text);
    forall a, b | Signed(k, text, a, b, claims) ensures SplitDot(text) == Some((a, b)) {
      SplitsAtDot(a, b);
    }
    match SplitDot(text)
    case None =>
    case Some((a, b)) =>
      if Read(k, text) == Some(claims) {
        assert Signed(k, text, a, b, claims);
      }
  }

  lemma {:induction false} SplitRejoins(s: string)
    ensures SplitDot(s).None? <==> '.' !in s
    ensures SplitDot(s).Some? ==> var (a, b) := SplitDot(s).value; s == a + "." + b && '.' !in a
  {
    if s != [] {
      SplitRejoins(s[1..]);
      assert s == [s[0]] + s[1..];
    }
  }

  /** A text is accepted exactly if it is signed and its claims are of the purpose asked for, in date,
    of this room and, when tokens are bound, of this client. */
  lemma TextVerifiesExactly(k: Signer, c: Config, text: string, owner: Owner, now: int, purpose: Purpose, claims: Claims)
    ensures VerifyText(k, c, text, owner, now, purpose) == Some(claims)
       <==> && |text| <= 1024 && (exists a, b :: Signed(k, text, a, b, claims))
            && claims.purpose == purpose && now <= claims.exp * 1000
            && (c.bind ==> claims.client == Some(owner)) && claims.room == c.name
  {
    ReadsSignedOnly(k, text, claims);
    hide Read, Signed;
  }

  /** A wrong signature is refused, whatever the claims. */
  lemma ForgedTextIsRefused(k: Signer, c: Config, payload: Bytes, sig: Bytes, owner: Owner, now: int, purpose: Purpose)
    requires sig != k.mac(payload)
    ensures VerifyText(k, c, Encode(payload) + "." + Encode(sig), owner, now, purpose) == None
  {
    EncodeIsBare(payload);
    SplitsAtDot(Encode(payload), Encode(sig));
    Base64RoundTrip(payload);
    Base64RoundTrip(sig);
  }

  /** And so is a text that is too long or has no dot. */
  lemma MalformedTextIsRefused(k: Signer, c: Config, text: string, owner: Owner, now: int, purpose: Purpose)
    requires |text| > 1024 || '.' !in text
    ensures VerifyText(k, c, text, owner, now, purpose) == None
  {
    SplitRejoins(text);
  }

  /** A token issued by one room verifies in a room with the same key exactly when it is in date,
    of the purpose asked for, of the same room, and bound to the same client if binding is on; and
    it then gives back the session, the room and the times it was issued with. */
  lemma IssuedTokenVerifies(k: Signer, c: Config, d: Config, sid: Sid, owner: Owner, issuedAt: int, ttl: int, nonce: Nonce,
                            purpose: Purpose, other: Owner, now: int, asked: Purpose)
    requires Lossless(k)
    requires |Sign(k, Issue(c, sid, owner, issuedAt, ttl, nonce, purpose))| <= MAX_TOKEN_LEN
    ensures var claims := Issue(c, sid, owner, issuedAt, ttl, nonce, purpose);
            var result := VerifyText(k, d, Sign(k, claims), other, now, asked);
            && (result.Some? <==> asked == purpose && now <= (Seconds(issuedAt) + ttl) * 1000 && d.name == c.name
                                  && (d.bind ==> c.bind && other == owner))
            && (result.Some? ==> result.value.sid == sid && result.value.room == c.name
                                 && result.value.iat == Seconds(issuedAt) && result.value.exp == Seconds(issuedAt) + ttl)
  {
    SignedTextReadsBack(k, Issue(c, sid, owner, issuedAt, ttl, nonce, purpose));
  }
}
