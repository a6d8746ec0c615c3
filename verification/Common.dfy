/** Small shared vocabulary: optional values and byte strings. */
module Common {
  datatype Option<+T> = None | Some(value: T)

  newtype Byte = x: int | 0 <= x < 256
  type Bytes = seq<Byte>

  /** The two provider protocols. */
  datatype Protocol = Responses | Chat
}

/** Chunks of a stream joined back together. */
module Chunks {
  function Concat<T>(chunks: seq<seq<T>>): seq<T> {
    if chunks == [] then [] else Concat(chunks[..|chunks| - 1]) + chunks[|chunks| - 1]
  }

  lemma ConcatLast<T>(chunks: seq<seq<T>>)
    requires chunks != []
    ensures Concat(chunks) == Concat(chunks[..|chunks| - 1]) + chunks[|chunks| - 1]
  {
  }

  lemma NothingJoined<T>()
    ensures Concat<T>([]) == []
  {
  }

  lemma {:induction false} ConcatFirst<T>(chunks: seq<seq<T>>)
    requires chunks != []
    ensures Concat(chunks) == chunks[0] + Concat(chunks[1..])
  {
    hide Concat;
    var n := |chunks| - 1;
    ConcatLast(chunks);
    if n == 0 {
      assert chunks[1..] == [] && chunks[..n] == [];
      NothingJoined<T>();
    } else {
      ConcatFirst(chunks[..n]);
      ConcatLast(chunks[1..]);
      assert chunks[..n][1..] == chunks[1..][..n - 1];
    }
  }
}

/** Sizes of finite sets. */
module SetSizes {
  lemma {:induction false} SubsetSize<T>(a: set<T>, b: set<T>)
    requires a <= b
    ensures |a| <= |b|
    decreases |a|
  {
    if a != {} {
      var x :| x in a;
      SubsetSize(a - {x}, b - {x});
    }
  }

  /** A subset of the same size is the whole set. */
  lemma SameSize<T>(a: set<T>, b: set<T>)
    requires a <= b && |a| == |b|
    ensures a == b
  {
    if x :| x in b && x !in a {
      SubsetSize(a, b - {x});
    }
  }
}

/** Numbers in decimal notation. */
module Decimals {
  function Digits(n: nat): string {
    var last := [(48 + n % 10) as char];
    if n < 10 then last else Digits(n / 10) + last
  }

  /** The decimal value of a digit string. */
  function Value(s: string): int {
    if s == "" then 0 else 10 * Value(s[..|s| - 1]) + (s[|s| - 1] as int - 48)
  }

  lemma {:induction false} DigitsValue(n: nat)
    ensures Value(Digits(n)) == n
  {
    var last := [(48 + n % 10) as char];
    if n >= 10 {
      DigitsValue(n / 10);
      assert Digits(n)[..|Digits(n)| - 1] == Digits(n / 10);
    } else {
      assert last[..0] == "";
    }
  }
}

/** Sums over sequences, used to state that a running total equals the sum of its parts. */
module Sums {
  function Sum<T>(s: seq<T>, f: T -> int): int {
    if s == [] then 0 else Sum(s[..|s| - 1], f) + f(s[|s| - 1])
  }

  lemma SumAppend<T>(s: seq<T>, x: T, f: T -> int)
    ensures Sum(s + [x], f) == Sum(s, f) + f(x)
  {
    assert (s + [x])[..|s|] == s;
  }

  lemma {:induction false} SumUpdate<T>(s: seq<T>, i: nat, x: T, f: T -> int)
    requires i < |s|
    ensures Sum(s[i := x], f) == Sum(s, f) - f(s[i]) + f(x)
  {
    var n := |s| - 1;
    if i == n {
      assert s[i := x][..n] == s[..n];
    } else {
      assert s[i := x][..n] == s[..n][i := x];
      SumUpdate(s[..n], i, x, f);
    }
  }

  lemma {:induction false} SumNonNegative<T>(s: seq<T>, f: T -> int)
    requires forall x | x in s :: 0 <= f(x)
    ensures 0 <= Sum(s, f)
    ensures forall i | 0 <= i < |s| :: f(s[i]) <= Sum(s, f)
  {
    if s != [] {
      var init := s[..|s| - 1];
      SumNonNegative(init, f);
      forall i | 0 <= i < |s| ensures f(s[i]) <= Sum(s, f) {
        if i < |s| - 1 { assert init[i] == s[i]; }
      }
    }
  }

  /** A non-negative sum is zero exactly when every part is zero. */
  lemma SumZero<T>(s: seq<T>, f: T -> int)
    requires forall x | x in s :: 0 <= f(x)
    ensures Sum(s, f) == 0 <==> forall i | 0 <= i < |s| :: f(s[i]) == 0
  {
    SumNonNegative(s, f);
    if forall i | 0 <= i < |s| :: f(s[i]) == 0 {
      AllZero(s, f);
    }
  }

  lemma {:induction false} AllZero<T>(s: seq<T>, f: T -> int)
    requires forall i | 0 <= i < |s| :: f(s[i]) == 0
    ensures Sum(s, f) == 0
  {
    if s != [] { AllZero(s[..|s| - 1], f); }
  }

  /** If only position k can contribute, the sum is that contribution. */
  lemma {:induction false} SumSingle<T>(s: seq<T>, k: nat, f: T -> int)
    requires k < |s|
    requires forall i | 0 <= i < |s| && i != k :: f(s[i]) == 0
    ensures Sum(s, f) == f(s[k])
  {
    var n := |s| - 1;
    if k == n {
      AllZero(s[..n], f);
    } else {
      SumSingle(s[..n], k, f);
    }
  }
}

/** The same over amounts of money. */
module RealSums {
  function Total<T>(s: seq<T>, f: T -> real): real {
    if s == [] then 0.0 else Total(s[..|s| - 1], f) + f(s[|s| - 1])
  }

  lemma TotalAppend<T>(s: seq<T>, x: T, f: T -> real)
    ensures Total(s + [x], f) == Total(s, f) + f(x)
  {
    assert (s + [x])[..|s|] == s;
  }

  lemma {:induction false} TotalUpdate<T>(s: seq<T>, i: nat, x: T, f: T -> real)
    requires i < |s|
    ensures Total(s[i := x], f) == Total(s, f) - f(s[i]) + f(x)
  {
    var n := |s| - 1;
    if i == n {
      assert s[i := x][..n] == s[..n];
    } else {
      assert s[i := x][..n] == s[..n][i := x];
      TotalUpdate(s[..n], i, x, f);
    }
  }

  lemma {:induction false} TotalCovers<T>(s: seq<T>, f: T -> real)
    requires forall x | x in s :: 0.0 <= f(x)
    ensures 0.0 <= Total(s, f)
    ensures forall i | 0 <= i < |s| :: f(s[i]) <= Total(s, f)
  {
    if s != [] {
      var init := s[..|s| - 1];
      TotalCovers(init, f);
      forall i | 0 <= i < |s| ensures f(s[i]) <= Total(s, f) {
        if i < |s| - 1 { assert init[i] == s[i]; }
      }
    }
  }
}

/** Decoded JSON values. */
module JsonValues {
  datatype Dyadic = Dyadic(m: int, e: nat)

  /** A floating-point number is m / 2^e in lowest terms; there are only countably many. */
  type Float = d: Dyadic | d.e == 0 || d.m % 2 == 1 witness Dyadic(0, 0)

  datatype Json =
    | Null | Bool(b: bool) | Int(n: int) | Num(x: Float) | Str(s: string)
    | Arr(items: seq<Json>) | Obj(fields: map<string, Json>)

  /** fields.get(key) */
  function Get(fields: map<string, Json>, key: string): Json {
    if key in fields then fields[key] else Null
  }

  predicate Truthy(j: Json) {
    match j
    case Null => false
    case Bool(b) => b
    case Int(n) => n != 0
    case Num(x) => x.m != 0
    case Str(s) => s != ""
    case Arr(items) => items != []
    case Obj(fields) => fields != map[]
  }
}
