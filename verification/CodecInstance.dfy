/**
 The hypotheses on the codec can be met together: a prefix code of JSON values, its inverse, and a
 hash that keeps its input. Every encoder writes its value in front of a given tail.
 */
module CodecInstance {
  import opened Common
  import opened JsonValues
  import opened BackupOracle

  // ---- numbers and texts ----------------------------------------------------------------

  function Unary(n: nat, tail: Bytes): Bytes {
    if n == 0 then [0] + tail else [1] + Unary(n - 1, tail)
  }

  lemma {:induction false} UnaryDetermines(m: nat, n: nat, x: Bytes, y: Bytes)
    requires Unary(m, x) == Unary(n, y)
    ensures m == n && x == y
  {
    assert Unary(m, x)[0] == Unary(n, y)[0];
    if m == 0 {
      assert Unary(m, x)[1..] == x && Unary(n, y)[1..] == y;
    } else {
      assert Unary(m, x)[1..] == Unary(m - 1, x) && Unary(n, y)[1..] == Unary(n - 1, y);
      UnaryDetermines(m - 1, n - 1, x, y);
    }
  }

  function Signed(n: int): nat { if n >= 0 then 2 * n else -2 * n - 1 }

  function Letters(s: string, tail: Bytes): Bytes {
    if s == "" then tail else Unary(s[0] as int, Letters(s[1..], tail))
  }

  function Text(s: string, tail: Bytes): Bytes { Unary(|s|, Letters(s, tail)) }

  lemma {:induction false} LettersDetermine(s: string, t: string, x: Bytes, y: Bytes)
    requires |s| == |t| && Letters(s, x) == Letters(t, y)
    ensures s == t && x == y
  {
    if s != "" {
      UnaryDetermines(s[0] as int, t[0] as int, Letters(s[1..], x), Letters(t[1..], y));
      LettersDetermine(s[1..], t[1..], x, y);
      assert s == [s[0]] + s[1..] && t == [t[0]] + t[1..];
    }
  }

  lemma TextDetermines(s: string, t: string, x: Bytes, y: Bytes)
    requires Text(s, x) == Text(t, y)
    ensures s == t && x == y
  {
    UnaryDetermines(|s|, |t|, Letters(s, x), Letters(t, y));
    LettersDetermine(s, t, x, y);
  }

  function Names(keys: seq<string>, tail: Bytes): Bytes {
    if keys == [] then tail else Text(keys[0], Names(keys[1..], tail))
  }

  lemma {:induction false} NamesDetermine(a: seq<string>, b: seq<string>, x: Bytes, y: Bytes)
    requires |a| == |b| && Names(a, x) == Names(b, y)
    ensures a == b && x == y
  {
    if a != [] {
      TextDetermines(a[0], b[0], Names(a[1..], x), Names(b[1..], y));
      NamesDetermine(a[1..], b[1..], x, y);
      assert a == [a[0]] + a[1..] && b == [b[0]] + b[1..];
    }
  }

  // ---- values ---------------------------------------------------------------------------

  /** Some order of the keys, the same for equal sets. */
  ghost function KeyOrder(keys: set<string>): (r: seq<string>)
    ensures forall k :: k in r <==> k in keys
  {
    if keys == {} then [] else var k :| k in keys; [k] + KeyOrder(keys - {k})
  }

  ghost function Encode(j: Json, tail: Bytes): Bytes
    decreases j, 1, 0
  {
    match j
    case Null => Unary(0, tail)
    case Bool(b) => Unary(1, Unary(if b then 1 else 0, tail))
    case Int(n) => Unary(2, Unary(Signed(n), tail))
    case Num(x) => Unary(3, Unary(Signed(x.m), Unary(x.e, tail)))
    case Str(s) => Unary(4, Text(s, tail))
    case Arr(items) => Unary(5, Unary(|items|, Items(j, 0, tail)))
    case Obj(fields) =>
      var keys := KeyOrder(fields.Keys);
      Unary(6, Unary(|keys|, Names(keys, Fields(j, keys, 0, tail))))
  }

  ghost function Items(j: Json, i: nat, tail: Bytes): Bytes
    requires j.Arr? && i <= |j.items|
    decreases j, 0, |j.items| - i
  {
    if i == |j.items| then tail else Encode(j.items[i], Items(j, i + 1, tail))
  }

  ghost function Fields(j: Json, keys: seq<string>, i: nat, tail: Bytes): Bytes
    requires j.Obj? && i <= |keys| && forall k | k in keys :: k in j.fields
    decreases j, 0, |keys| - i
  {
    if i == |keys| then tail else Encode(j.fields[keys[i]], Fields(j, keys, i + 1, tail))
  }

  function Tag(j: Json): nat {
    match j
    case Null => 0 case Bool(_) => 1 case Int(_) => 2 case Num(_) => 3
    case Str(_) => 4 case Arr(_) => 5 case Obj(_) => 6
  }

  ghost function Body(j: Json, tail: Bytes): Bytes {
    match j
    case Null => tail
    case Bool(b) => Unary(if b then 1 else 0, tail)
    case Int(n) => Unary(Signed(n), tail)
    case Num(x) => Unary(Signed(x.m), Unary(x.e, tail))
    case Str(s) => Text(s, tail)
    case Arr(items) => Unary(|items|, Items(j, 0, tail))
    case Obj(fields) =>
      var keys := KeyOrder(fields.Keys);
      Unary(|keys|, Names(keys, Fields(j, keys, 0, tail)))
  }

  /** A prefix code: equal encodings have equal values and equal tails. */
  lemma {:induction false} EncodingDetermines(a: Json, b: Json, x: Bytes, y: Bytes)
    requires Encode(a, x) == Encode(b, y)
    ensures a == b && x == y
    decreases a, 2, 0
  {
    assert Encode(a, x) == Unary(Tag(a), Body(a, x)) && Encode(b, y) == Unary(Tag(b), Body(b, y));
    UnaryDetermines(Tag(a), Tag(b), Body(a, x), Body(b, y));
    match a
    case Null =>
    case Bool(p) => UnaryDetermines(if p then 1 else 0, if b.b then 1 else 0, x, y);
    case Int(n) => UnaryDetermines(Signed(n), Signed(b.n), x, y);
    case Num(f) =>
      UnaryDetermines(Signed(f.m), Signed(b.x.m), Unary(f.e, x), Unary(b.x.e, y));
      UnaryDetermines(f.e, b.x.e, x, y);
    case Str(s) => TextDetermines(s, b.s, x, y);
    case Arr(items) =>
      UnaryDetermines(|items|, |b.items|, Items(a, 0, x), Items(b, 0, y));
      ItemsDetermine(a, b, 0, x, y);
    case Obj(fields) => ObjectsDetermine(a, b, x, y);
  }

  lemma {:induction false} ItemsDetermine(a: Json, b: Json, i: nat, x: Bytes, y: Bytes)
    requires a.Arr? && b.Arr? && |a.items| == |b.items| && i <= |a.items| && Items(a, i, x) == Items(b, i, y)
    ensures a.items[i..] == b.items[i..] && x == y
    decreases a, 0, |a.items| - i
  {
    if i < |a.items| {
      EncodingDetermines(a.items[i], b.items[i], Items(a, i + 1, x), Items(b, i + 1, y));
      ItemsDetermine(a, b, i + 1, x, y);
      assert a.items[i..] == [a.items[i]] + a.items[i + 1..] && b.items[i..] == [b.items[i]] + b.items[i + 1..];
    }
  }

  lemma {:induction false} FieldsDetermine(a: Json, b: Json, keys: seq<string>, i: nat, x: Bytes, y: Bytes)
    requires a.Obj? && b.Obj? && i <= |keys| && forall k | k in keys :: k in a.fields && k in b.fields
    requires Fields(a, keys, i, x) == Fields(b, keys, i, y)
    ensures x == y && forall n | i <= n < |keys| :: a.fields[keys[n]] == b.fields[keys[n]]
    decreases a, 0, |keys| - i
  {
    if i < |keys| {
      EncodingDetermines(a.fields[keys[i]], b.fields[keys[i]], Fields(a, keys, i + 1, x), Fields(b, keys, i + 1, y));
      FieldsDetermine(a, b, keys, i + 1, x, y);
    }
  }

  lemma {:induction false} ObjectsDetermine(a: Json, b: Json, x: Bytes, y: Bytes)
    requires a.Obj? && b.Obj? && Body(a, x) == Body(b, y)
    ensures a == b && x == y
    decreases a, 1, 0
  {
    var p, q := KeyOrder(a.fields.Keys), KeyOrder(b.fields.Keys);
    UnaryDetermines(|p|, |q|, Names(p, Fields(a, p, 0, x)), Names(q, Fields(b, q, 0, y)));
    NamesDetermine(p, q, Fields(a, p, 0, x), Fields(b, q, 0, y));
    FieldsDetermine(a, b, p, 0, x, y);
    assert a.fields.Keys == b.fields.Keys;
    forall k | k in a.fields ensures a.fields[k] == b.fields[k] {
      var n :| 0 <= n < |p| && p[n] == k;
    }
  }

  // ---- the instance ---------------------------------------------------------------------

  ghost function Decode(body: Bytes): Option<Json> {
    if j :| Encode(j, []) == body then Some(j) else None
  }

  /** Some codec round-trips every JSON value and has a hash without collisions. */
  lemma CodecExists()
    ensures exists k :: RoundTrips(k) && CollisionFree(k)
  {
    var hash := (b: Bytes) => seq(|b|, i requires 0 <= i < |b| => b[i] as char);
    var k := Codec(j => Encode(j, []), b => Decode(b), hash, s => None);
    forall j ensures k.loads(k.canon(j)) == Some(j) {
      var read := Decode(Encode(j, []));
      assert read.Some? && Encode(read.value, []) == Encode(j, []);
      EncodingDetermines(read.value, j, [], []);
    }
    forall a, b | k.sha(a) == k.sha(b) ensures a == b {
      assert |a| == |k.sha(a)| && |b| == |k.sha(b)|;
      forall i | 0 <= i < |a| ensures a[i] == b[i] {
        assert k.sha(a)[i] == a[i] as char && k.sha(b)[i] == b[i] as char;
      }
    }
    assert RoundTrips(k) && CollisionFree(k);
  }
}
