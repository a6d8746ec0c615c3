/** Unpadded base64url (section 5 of RFC 4648), its inverse, and its length. */
module Base64Url {
  import opened Common

  function Letter(v: int): Byte
    requires 0 <= v < 64
  {
    (if v < 26 then 65 + v else if v < 52 then 71 + v else if v < 62 then v - 4 else if v == 62 then 45 else 95) as Byte
  }

  function Sextet(c: Byte): (v: int)
    ensures 0 <= v < 64
  {
    var n := c as int;
    if 65 <= n <= 90 then n - 65
    else if 97 <= n <= 122 then n - 71
    else if 48 <= n <= 57 then n + 4
    else if n == 45 then 62
    else if n == 95 then 63
    else 0
  }

  lemma SextetOfLetter(v: int)
    requires 0 <= v < 64
    ensures Sextet(Letter(v)) == v && Letter(v) != 61
  {
  }

  // The four sextets of three bytes; missing bytes count as zero.
  function Sextet0(a: Byte): (v: int) ensures 0 <= v < 64 {
    a as int / 4
  }
  function Sextet1(a: Byte, b: Byte): (v: int) ensures 0 <= v < 64 {
    a as int % 4 * 16 + b as int / 16
  }
  function Sextet2(b: Byte, c: Byte): (v: int) ensures 0 <= v < 64 {
    b as int % 16 * 4 + c as int / 64
  }
  function Sextet3(c: Byte): (v: int) ensures 0 <= v < 64 {
    c as int % 64
  }

  function Encode(s: Bytes): Bytes {
    if s == [] then []
    else if |s| == 1 then [Letter(Sextet0(s[0])), Letter(Sextet1(s[0], 0))]
    else if |s| == 2 then [Letter(Sextet0(s[0])), Letter(Sextet1(s[0], s[1])), Letter(Sextet2(s[1], 0))]
    else
      [Letter(Sextet0(s[0])), Letter(Sextet1(s[0], s[1])), Letter(Sextet2(s[1], s[2])), Letter(Sextet3(s[2]))]
      + Encode(s[3..])
  }

  function First(p: int, q: int): Byte
    requires 0 <= p < 64 && 0 <= q < 64
  {
    (p * 4 + q / 16) as Byte
  }
  function Second(q: int, r: int): Byte
    requires 0 <= q < 64 && 0 <= r < 64
  {
    (q % 16 * 16 + r / 4) as Byte
  }
  function Third(r: int, t: int): Byte
    requires 0 <= r < 64 && 0 <= t < 64
  {
    (r % 4 * 64 + t) as Byte
  }

  function Decode(s: Bytes): Bytes {
    if |s| < 2 then []
    else
      var p, q := Sextet(s[0]), Sextet(s[1]);
      if |s| == 2 then [First(p, q)]
      else
        var r := Sextet(s[2]);
        if |s| == 3 then [First(p, q), Second(q, r)]
        else [First(p, q), Second(q, r), Third(r, Sextet(s[3]))] + Decode(s[4..])
  }

  lemma GroupRoundTrip(a: Byte, b: Byte, c: Byte)
    ensures First(Sextet0(a), Sextet1(a, b)) == a
    ensures Second(Sextet1(a, b), Sextet2(b, c)) == b
    ensures Third(Sextet2(b, c), Sextet3(c)) == c
  {
  }

  lemma {:induction false} RoundTrip(s: Bytes)
    ensures Decode(Encode(s)) == s
  {
    hide Letter, Sextet, First, Second, Third, Sextet0, Sextet1, Sextet2, Sextet3;
    if s != [] {
      var b := if |s| > 1 then s[1] else 0;
      var c := if |s| > 2 then s[2] else 0;
      GroupRoundTrip(s[0], b, c);
      SextetOfLetter(Sextet0(s[0]));
      SextetOfLetter(Sextet1(s[0], b));
      SextetOfLetter(Sextet2(b, c));
      SextetOfLetter(Sextet3(c));
      if |s| >= 3 {
        RoundTrip(s[3..]);
        assert Encode(s)[4..] == Encode(s[3..]);
        assert s == [s[0], s[1], s[2]] + s[3..];
      }
    }
  }

  /** Distinct byte strings have distinct encodings. */
  lemma Injective(s: Bytes, t: Bytes)
    requires Encode(s) == Encode(t)
    ensures s == t
  {
    RoundTrip(s);
    RoundTrip(t);
  }

  lemma {:induction false} EncodedLength(s: Bytes)
    ensures |Encode(s)| == (4 * |s| + 2) / 3
  {
    hide Letter;
    if |s| >= 3 { EncodedLength(s[3..]); }
  }
}
