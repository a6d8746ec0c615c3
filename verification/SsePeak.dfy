/**
 The high-water mark of buffered bytes. A line that fits leaves its length plus the data already
 joined. An overlong line leaves whatever prefix of it happened to end a chunk: nothing when it
 arrives at once, a full buffer when it arrives byte by byte.
 */
module SsePeak {
  import opened Common
  import opened Chunks
  import opened SseStream
  import opened SseCapture

  // ---- the mark the lines leave ---------------------------------------------------------

  /** Of the lines that fit. An unterminated empty line is never looked at. */
  function FittingPeak(g: Settings, ev: Building, lines: seq<Bytes>): nat
    decreases |lines|
  {
    if lines == [] then 0
    else
      var own := if LongLine(g, lines[0]) || lines == [[]] then 0 else |lines[0]| + |ev.data|;
      Max(own, FittingPeak(g, TakeRaw(g, ev, lines[0]), lines[1..]))
  }

  /** The most the overlong lines can leave. */
  function LongPeak(g: Settings, ev: Building, lines: seq<Bytes>): nat
    decreases |lines|
  {
    if lines == [] then 0
    else
      var own := if LongLine(g, lines[0]) then g.max + |ev.data| else 0;
      Max(own, LongPeak(g, TakeRaw(g, ev, lines[0]), lines[1..]))
  }

  /** A full buffer at line i, on top of the data joined before it. */
  function LongMark(g: Settings, ev: Building, lines: seq<Bytes>, i: nat): nat
    requires i < |lines|
  {
    g.max + |TakeRaws(g, ev, lines[..i]).data|
  }

  /** What no overlong line could exceed: the mark left by the lines that fit. */
  ghost predicate LongLinesHidden(g: Settings, s: Bytes) {
    var ev, lines := Fresh().ev, Split(s);
    forall i: nat | i < |lines| && LongLine(g, lines[i]) :: LongMark(g, ev, lines, i) <= FittingPeak(g, ev, lines)
  }

  lemma {:induction false} LongPeakBelow(g: Settings, ev: Building, lines: seq<Bytes>, mark: nat)
    ensures LongPeak(g, ev, lines) <= mark <==>
      forall i: nat | i < |lines| && LongLine(g, lines[i]) :: LongMark(g, ev, lines, i) <= mark
    decreases |lines|
  {
    if lines != [] {
      var ev1, rest := TakeRaw(g, ev, lines[0]), lines[1..];
      LongPeakBelow(g, ev1, rest, mark);
      forall i: nat | i < |rest| ensures LongMark(g, ev, lines, i + 1) == LongMark(g, ev1, rest, i) {
        assert lines[..i + 1][1..] == rest[..i];
      }
      assert LongMark(g, ev, lines, 0) == g.max + |ev.data|;
      hide LongMark, TakeRaw;
      if forall i: nat | i < |lines| && LongLine(g, lines[i]) :: LongMark(g, ev, lines, i) <= mark {
        forall i: nat | i < |rest| && LongLine(g, rest[i]) ensures LongMark(g, ev1, rest, i) <= mark {
          assert LongLine(g, lines[i + 1]) && LongMark(g, ev, lines, i + 1) <= mark;
        }
      }
      if forall i: nat | i < |rest| && LongLine(g, rest[i]) :: LongMark(g, ev1, rest, i) <= mark {
        forall i: nat | i < |lines| && LongLine(g, lines[i]) && LongPeak(g, ev, lines) <= mark
          ensures LongMark(g, ev, lines, i) <= mark
        {
          if i > 0 { assert LongLine(g, rest[i - 1]); }
        }
      }
    }
  }

  // ---- one chunk ------------------------------------------------------------------------

  lemma {:induction false} SplitAtLf(s: Bytes)
    ensures var n := NextLf(s); Split(s) == if n == |s| then [s] else [s[..n]] + Split(s[n + 1..])
    decreases |s|
  {
    if s != [] && s[0] != LF {
      SplitAtLf(s[1..]);
      var n := NextLf(s);
      assert s[1..][..n - 1] == s[1..n] && [s[0]] + s[1..n] == s[..n];
      if n < |s| {
        assert s[1..][n..] == s[n + 1..];
      } else {
        assert [s[0]] + s[1..] == s;
      }
    }
  }

  /** The feeding loop's first round, as far as the mark goes. */
  lemma ChunkStep(g: Settings, b: Buffers, peak: nat, s: Bytes)
    requires s != []
    ensures var n := NextLf(s); var b1 := Extend(g, b, s[..n]);
      ChunkPeak(g, b, peak, s) ==
        if n == |s| then Max(peak, Buffered(b1)) else ChunkPeak(g, EndLine(g, b1), Max(peak, Buffered(b1)), s[n + 1..])
  {
    hide NextLf, Extend, EndLine, Buffered;
  }

  lemma EmptyStream(g: Settings, ev: Building, b: Buffers, peak: nat)
    ensures ChunkPeak(g, b, peak, []) == peak && BytePeak(g, b, []) == 0 && Split([]) == [[]]
    ensures FittingPeak(g, ev, [[]]) == 0 && LongPeak(g, ev, [[]]) == 0
  {
    assert FittingPeak(g, TakeRaw(g, ev, []), []) == 0;
  }

  /** One more line in front. */
  lemma LineMarks(g: Settings, ev: Building, line: Bytes, rest: seq<Bytes>)
    requires line != [] || rest != []
    ensures Buffered(Open(g, ev, line)) == if LongLine(g, line) then 0 else |line| + |ev.data|
    ensures FittingPeak(g, ev, [line] + rest) ==
      Max(Buffered(Open(g, ev, line)), FittingPeak(g, TakeRaw(g, ev, line), rest))
    ensures LongPeak(g, ev, [line] + rest) ==
      Max(if LongLine(g, line) then g.max + |ev.data| else 0, LongPeak(g, TakeRaw(g, ev, line), rest))
  {
    assert ([line] + rest)[1..] == rest;
    hide TakeRaw;
  }

  lemma NoLines(g: Settings, ev: Building)
    ensures FittingPeak(g, ev, []) == 0 && LongPeak(g, ev, []) == 0
  {
  }

  lemma EndOpen(g: Settings, ev: Building, part: Bytes)
    ensures EndLine(g, Open(g, ev, part)) == Open(g, TakeRaw(g, ev, part), [])
  {
  }

  lemma ExtendOpen(g: Settings, ev: Building, piece: Bytes)
    ensures Extend(g, Open(g, ev, []), piece) == Open(g, ev, piece)
  {
    assert [] + piece == piece;
  }

  /** Fed at once, a stream leaves the mark of the lines that fit. */
  lemma {:induction false} OneChunkPeak(g: Settings, ev: Building, peak: nat, s: Bytes)
    requires 0 < g.max
    ensures ChunkPeak(g, Open(g, ev, []), peak, s) == Max(peak, FittingPeak(g, ev, Split(s)))
    decreases |s|
  {
    hide ChunkPeak, BytePeak, Split, NextLf, TakeRaw, Extend, EndLine, Open, Buffered, FittingPeak, LongPeak;
    if s == [] {
      EmptyStream(g, ev, Open(g, ev, []), peak);
    } else {
      ChunkStep(g, Open(g, ev, []), peak, s);
      var n := NextLf(s);
      var piece := s[..n];
      SplitAtLf(s);
      ExtendOpen(g, ev, piece);
      if n < |s| {
        LineMarks(g, ev, piece, Split(s[n + 1..]));
        EndOpen(g, ev, piece);
        OneChunkPeak(g, TakeRaw(g, ev, piece), Max(peak, Buffered(Open(g, ev, piece))), s[n + 1..]);
      } else {
        assert piece == s && [s] + [] == [s];
        LineMarks(g, ev, s, []);
        NoLines(g, TakeRaw(g, ev, s));
      }
    }
  }

  // ---- byte by byte ---------------------------------------------------------------------

  /** The most ever buffered, looking after every byte and before every newline. */
  function BytePeak(g: Settings, b: Buffers, s: Bytes): nat
    decreases |s|
  {
    if s == [] then 0
    else
      var seen := if s[0] == LF then Buffered(b) else Buffered(Extend(g, b, [s[0]]));
      Max(seen, BytePeak(g, TakeByte(g, b, s[0]), s[1..]))
  }

  lemma {:induction false} BytePeakConcat(g: Settings, b: Buffers, s: Bytes, t: Bytes)
    ensures BytePeak(g, b, s + t) == Max(BytePeak(g, b, s), BytePeak(g, TakeBytes(g, b, s), t))
    decreases |s|
  {
    if s == [] {
      assert s + t == t;
    } else {
      assert (s + t)[1..] == s[1..] + t;
      BytePeakConcat(g, TakeByte(g, b, s[0]), s[1..], t);
    }
  }

  lemma LfStep(g: Settings, b: Buffers, t: Bytes)
    requires t != [] && t[0] == LF
    ensures BytePeak(g, b, t) == Max(Buffered(b), BytePeak(g, EndLine(g, b), t[1..]))
  {
    hide EndLine, Extend, Buffered;
  }

  lemma NothingSeen(g: Settings, b: Buffers)
    ensures BytePeak(g, b, []) == 0
  {
  }

  lemma ByteStepAt(g: Settings, b: Buffers, piece: Bytes, rest: Bytes)
    requires |b.line| <= g.max && LF !in piece && (rest != [] ==> rest[0] == LF)
    ensures var b1 := Extend(g, b, piece);
      BytePeak(g, b, piece + rest) == Max(BytePeak(g, b, piece),
        if rest == [] then 0 else Max(Buffered(b1), BytePeak(g, EndLine(g, b1), rest[1..])))
  {
    hide TakeBytes, Extend, EndLine, Buffered, BytePeak;
    BytePeakConcat(g, b, piece, rest);
    TakePiece(g, b, piece);
    ExtendNothing(g, b);
    if rest == [] {
      NothingSeen(g, Extend(g, b, piece));
    } else {
      LfStep(g, Extend(g, b, piece), rest);
    }
  }

  lemma ByteStep(g: Settings, b: Buffers, s: Bytes)
    requires |b.line| <= g.max && s != []
    ensures var n := NextLf(s); var b1 := Extend(g, b, s[..n]);
      BytePeak(g, b, s) == Max(BytePeak(g, b, s[..n]),
        if n == |s| then 0 else Max(Buffered(b1), BytePeak(g, EndLine(g, b1), s[n + 1..])))
  {
    var n := NextLf(s);
    hide NextLf, Extend, EndLine, Buffered, BytePeak;
    ByteStepAt(g, b, s[..n], s[n..]);
    assert s[..n] + s[n..] == s;
    if n < |s| { assert s[n..][1..] == s[n + 1..]; }
  }

  /** What a growing line leaves: its length, or a full buffer on the way to being dropped. */
  function PieceMark(g: Settings, ev: Building, part: Bytes, piece: Bytes): nat {
    if piece == [] || |part| >= g.max then 0
    else if LongLine(g, part + piece) then g.max + |ev.data|
    else |part + piece| + |ev.data|
  }

  lemma {:induction false} PiecePeak(g: Settings, ev: Building, part: Bytes, piece: Bytes)
    requires LF !in piece
    ensures BytePeak(g, Open(g, ev, part), piece) == PieceMark(g, ev, part, piece)
    decreases |piece|
  {
    if piece != [] {
      var part1 := part + [piece[0]];
      assert part1 + piece[1..] == part + piece;
      assert TakeByte(g, Open(g, ev, part), piece[0]) == Open(g, ev, part1);
      PiecePeak(g, ev, part1, piece[1..]);
    }
  }

  lemma OpenFits(g: Settings, ev: Building)
    ensures |Open(g, ev, []).line| == 0
  {
  }

  /** Byte by byte, a stream leaves the greatest of all marks. */
  lemma {:induction false} ByteMarks(g: Settings, ev: Building, s: Bytes)
    requires 0 < g.max
    ensures BytePeak(g, Open(g, ev, []), s) == Max(FittingPeak(g, ev, Split(s)), LongPeak(g, ev, Split(s)))
    decreases |s|
  {
    hide ChunkPeak, BytePeak, Split, NextLf, TakeRaw, Extend, EndLine, Open, Buffered, FittingPeak, LongPeak;
    if s == [] {
      EmptyStream(g, ev, Open(g, ev, []), 0);
    } else {
      OpenFits(g, ev);
      ByteStep(g, Open(g, ev, []), s);
      var n := NextLf(s);
      var piece := s[..n];
      SplitAtLf(s);
      PiecePeak(g, ev, [], piece);
      assert [] + piece == piece;
      ExtendOpen(g, ev, piece);
      if n < |s| {
        LineMarks(g, ev, piece, Split(s[n + 1..]));
        EndOpen(g, ev, piece);
        ByteMarks(g, TakeRaw(g, ev, piece), s[n + 1..]);
      } else {
        assert piece == s && [s] + [] == [s];
        LineMarks(g, ev, s, []);
        NoLines(g, TakeRaw(g, ev, s));
      }
    }
  }

  // ---- any chunking lies between --------------------------------------------------------

  lemma {:induction false} PeakFrom(g: Settings, b: Buffers, peak: nat, s: Bytes)
    ensures ChunkPeak(g, b, peak, s) == Max(peak, ChunkPeak(g, b, 0, s))
    decreases |s|
  {
    if s != [] {
      hide NextLf, Extend, EndLine, Buffered;
      ChunkStep(g, b, peak, s);
      ChunkStep(g, b, 0, s);
      var n := NextLf(s);
      var b1 := Extend(g, b, s[..n]);
      if n < |s| {
        PeakFrom(g, EndLine(g, b1), Max(peak, Buffered(b1)), s[n + 1..]);
        PeakFrom(g, EndLine(g, b1), Buffered(b1), s[n + 1..]);
      }
    }
  }

  lemma {:induction false} PieceSeen(g: Settings, b: Buffers, piece: Bytes)
    requires LF !in piece && piece != [] && |b.line| <= g.max
    ensures Buffered(Extend(g, b, piece)) <= BytePeak(g, b, piece)
    decreases |piece|
  {
    var b1 := Extend(g, b, [piece[0]]);
    if |piece| > 1 {
      PieceSeen(g, b1, piece[1..]);
      assert b.line + [piece[0]] + piece[1..] == b.line + piece;
    } else {
      assert piece == [piece[0]];
    }
  }

  /** No chunk sees more than looking after every byte. */
  lemma {:induction false} ChunkBelowBytes(g: Settings, b: Buffers, s: Bytes)
    requires |b.line| <= g.max
    ensures ChunkPeak(g, b, 0, s) <= BytePeak(g, b, s)
    decreases |s|
  {
    if s != [] {
      ByteStep(g, b, s);
      ChunkStep(g, b, 0, s);
      var n := NextLf(s);
      var b1 := Extend(g, b, s[..n]);
      if n > 0 { PieceSeen(g, b, s[..n]); }
      assert |EndLine(g, b1).line| == 0;
      hide NextLf, Extend, EndLine, Buffered, BytePeak, ChunkPeak;
      if n < |s| {
        PeakFrom(g, EndLine(g, b1), Buffered(b1), s[n + 1..]);
        ChunkBelowBytes(g, EndLine(g, b1), s[n + 1..]);
      }
    }
  }

  lemma {:induction false} ChunksBelowBytes(g: Settings, b: Buffers, peak: nat, chunks: seq<Bytes>)
    requires Bounded(g, b)
    ensures ChunksPeak(g, b, peak, chunks) <= Max(peak, BytePeak(g, b, Concat(chunks)))
    decreases |chunks|
  {
    if chunks != [] {
      ConcatFirst(chunks);
      BytePeakConcat(g, b, chunks[0], Concat(chunks[1..]));
      ChunkBelowBytes(g, b, chunks[0]);
      PeakFrom(g, b, peak, chunks[0]);
      BuffersBounded(g, b, chunks[0]);
      ChunksBelowBytes(g, TakeBytes(g, b, chunks[0]), ChunkPeak(g, b, peak, chunks[0]), chunks[1..]);
    }
  }

  lemma NextLfConcat(s: Bytes, t: Bytes)
    ensures NextLf(s) < |s| ==> NextLf(s + t) == NextLf(s)
    ensures NextLf(s) == |s| ==> NextLf(s + t) == |s| + NextLf(t)
  {
    if s == [] {
      assert s + t == t;
    } else {
      assert (s + t)[1..] == s[1..] + t;
    }
  }

  lemma ExtendTwice(g: Settings, b: Buffers, x: Bytes, y: Bytes)
    requires |b.line| <= g.max
    ensures Extend(g, Extend(g, b, x), y) == Extend(g, b, x + y)
  {
    assert b.line + x + y == b.line + (x + y);
  }

  lemma {:induction false} NextLfAt(piece: Bytes, rest: Bytes)
    requires LF !in piece
    ensures NextLf(piece + [LF] + rest) == |piece|
  {
    if piece == [] {
      assert piece + [LF] + rest == [LF] + rest;
    } else {
      NextLfAt(piece[1..], rest);
      assert (piece + [LF] + rest)[1..] == piece[1..] + [LF] + rest;
    }
  }

  /** One round of the feeding loop, at a newline. */
  lemma RoundAt(g: Settings, b: Buffers, peak: nat, piece: Bytes, rest: Bytes)
    requires LF !in piece && |b.line| <= g.max
    ensures var s := piece + [LF] + rest; var b1 := Extend(g, b, piece);
      && ChunkPeak(g, b, peak, s) == ChunkPeak(g, EndLine(g, b1), Max(peak, Buffered(b1)), rest)
      && TakeBytes(g, b, s) == TakeBytes(g, EndLine(g, b1), rest)
  {
    hide NextLf, Extend, EndLine, Buffered, TakeBytes, ChunkPeak;
    var s := piece + [LF] + rest;
    NextLfAt(piece, rest);
    FeedStep(g, b, peak, s);
    assert s[..|piece|] == piece && s[|piece| + 1..] == rest;
  }

  /** Splitting a chunk in two can only raise the mark. */
  lemma {:induction false} SplittingRaises(g: Settings, b: Buffers, s: Bytes, t: Bytes)
    requires |b.line| <= g.max
    ensures ChunkPeak(g, b, 0, s + t) <= ChunkPeak(g, TakeBytes(g, b, s), ChunkPeak(g, b, 0, s), t)
    decreases |s|
  {
    if s == [] {
      assert s + t == t;
    } else if NextLf(s) == |s| {
      assert s[..|s|] == s;
      SplitPiece(g, b, s, t);
    } else {
      var n := NextLf(s);
      var piece, rest := s[..n], s[n + 1..];
      assert s == piece + [LF] + rest && s + t == piece + [LF] + (rest + t);
      assert |EndLine(g, Extend(g, b, piece)).line| == 0;
      hide NextLf, Extend, EndLine, TakeBytes, ChunkPeak;
      SplittingRaises(g, EndLine(g, Extend(g, b, piece)), rest, t);
      RaiseAtLf(g, b, piece, rest, t, rest + t);
    }
  }

  /** A newline in the first part hands the question on to what follows it. */
  lemma RaiseAtLf(g: Settings, b: Buffers, piece: Bytes, rest: Bytes, t: Bytes, more: Bytes)
    requires |b.line| <= g.max && LF !in piece
    requires var b1 := EndLine(g, Extend(g, b, piece));
      ChunkPeak(g, b1, 0, more) <= ChunkPeak(g, TakeBytes(g, b1, rest), ChunkPeak(g, b1, 0, rest), t)
    ensures var s := piece + [LF] + rest;
      ChunkPeak(g, b, 0, piece + [LF] + more) <= ChunkPeak(g, TakeBytes(g, b, s), ChunkPeak(g, b, 0, s), t)
  {
    hide Extend, EndLine, Buffered, TakeBytes, ChunkPeak;
    var b1, peak := EndLine(g, Extend(g, b, piece)), Buffered(Extend(g, b, piece));
    RoundAt(g, b, 0, piece, rest);
    RoundAt(g, b, 0, piece, more);
    PeakFrom(g, b1, peak, more);
    PeakFrom(g, b1, peak, rest);
    PeakFrom(g, TakeBytes(g, b1, rest), ChunkPeak(g, b1, peak, rest), t);
    PeakFrom(g, TakeBytes(g, b1, rest), ChunkPeak(g, b1, 0, rest), t);
  }

  lemma RaiseFrom(g: Settings, b: Buffers, peak: nat, s: Bytes, t: Bytes)
    requires ChunkPeak(g, b, 0, s + t) <= ChunkPeak(g, TakeBytes(g, b, s), ChunkPeak(g, b, 0, s), t)
    ensures ChunkPeak(g, b, peak, s + t) <= ChunkPeak(g, TakeBytes(g, b, s), ChunkPeak(g, b, peak, s), t)
  {
    hide ChunkPeak, TakeBytes;
    PeakFrom(g, b, peak, s + t);
    PeakFrom(g, b, peak, s);
    PeakFrom(g, TakeBytes(g, b, s), ChunkPeak(g, b, peak, s), t);
    PeakFrom(g, TakeBytes(g, b, s), ChunkPeak(g, b, 0, s), t);
  }

  lemma {:induction false} LfFree(s: Bytes)
    requires LF !in s
    ensures NextLf(s) == |s|
  {
  }

  lemma SplitPieceOn(g: Settings, b: Buffers, s: Bytes, t: Bytes)
    requires |b.line| <= g.max && NextLf(s) == |s| && s != [] && t != []
    ensures ChunkPeak(g, b, 0, s + t) <= ChunkPeak(g, Extend(g, b, s), Buffered(Extend(g, b, s)), t)
  {
    hide NextLf, Extend, EndLine, Buffered, ChunkPeak;
    var m := NextLf(t);
    var b1 := Extend(g, b, s);
    var b2 := Extend(g, b1, t[..m]);
    NextLfConcat(s, t);
    ChunkStep(g, b, 0, s + t);
    ChunkStep(g, b1, Buffered(b1), t);
    assert (s + t)[..|s| + m] == s + t[..m];
    ExtendTwice(g, b, s, t[..m]);
    if m < |t| {
      assert (s + t)[|s| + m + 1..] == t[m + 1..];
      PeakFrom(g, EndLine(g, b2), Buffered(b2), t[m + 1..]);
      PeakFrom(g, EndLine(g, b2), Max(Buffered(b1), Buffered(b2)), t[m + 1..]);
    }
  }

  lemma SplitPiece(g: Settings, b: Buffers, s: Bytes, t: Bytes)
    requires |b.line| <= g.max && LF !in s && s != []
    ensures ChunkPeak(g, b, 0, s + t) <= ChunkPeak(g, TakeBytes(g, b, s), ChunkPeak(g, b, 0, s), t)
  {
    LfFree(s);
    hide NextLf, TakeBytes, Extend, EndLine, Buffered, ChunkPeak;
    var b1 := Extend(g, b, s);
    TakePiece(g, b, s);
    assert s[..|s|] == s;
    ChunkStep(g, b, 0, s);
    if t == [] {
      assert s + t == s;
      PeakFrom(g, b1, Buffered(b1), t);
    } else {
      SplitPieceOn(g, b, s, t);
    }
  }

  lemma {:induction false} ChunksAboveOne(g: Settings, b: Buffers, peak: nat, chunks: seq<Bytes>)
    requires Bounded(g, b)
    ensures ChunkPeak(g, b, peak, Concat(chunks)) <= ChunksPeak(g, b, peak, chunks)
    decreases |chunks|
  {
    if chunks != [] {
      ConcatFirst(chunks);
      var rest := Concat(chunks[1..]);
      SplittingRaises(g, b, chunks[0], rest);
      RaiseFrom(g, b, peak, chunks[0], rest);
      BuffersBounded(g, b, chunks[0]);
      ChunksAboveOne(g, TakeBytes(g, b, chunks[0]), ChunkPeak(g, b, peak, chunks[0]), chunks[1..]);
    }
  }

  /** The chunking into single bytes. */
  function Singles(s: Bytes): seq<Bytes> { if s == [] then [] else [[s[0]]] + Singles(s[1..]) }

  lemma {:induction false} SinglesJoin(s: Bytes)
    ensures Concat(Singles(s)) == s
  {
    if s != [] {
      SinglesJoin(s[1..]);
      ConcatFirst(Singles(s));
      assert Singles(s)[1..] == Singles(s[1..]);
    }
  }

  lemma {:induction false} SinglesPeak(g: Settings, b: Buffers, peak: nat, s: Bytes)
    requires Bounded(g, b)
    ensures ChunksPeak(g, b, peak, Singles(s)) == Max(peak, BytePeak(g, b, s))
    decreases |s|
  {
    if s != [] {
      BuffersBounded(g, b, [s[0]]);
      assert [s[0]][1..] == [];
      assert b.line + [] == b.line;
      assert Singles(s)[1..] == Singles(s[1..]);
      var b1 := TakeByte(g, b, s[0]);
      assert TakeBytes(g, b, [s[0]]) == b1;
      SingleByte(g, b, peak, s[0]);
      SinglesPeak(g, b1, ChunkPeak(g, b, peak, [s[0]]), s[1..]);
    }
  }

  lemma SingleByte(g: Settings, b: Buffers, peak: nat, x: Byte)
    requires Bounded(g, b)
    ensures ChunkPeak(g, b, peak, [x]) == Max(peak, if x == LF then Buffered(b) else Buffered(Extend(g, b, [x])))
  {
    assert b.line + [] == b.line;
    if x == LF {
      assert NextLf([x]) == 0 && [x][..0] == [] && [x][1..] == [];
    } else {
      assert NextLf([x][1..]) == 0 && NextLf([x]) == 1 && [x][..1] == [x];
    }
  }

  // ---- exactly when the mark depends on the chunking ------------------------------------

  /** The mark a capture reports after these chunks. */
  function ReportedPeak(g: Settings, chunks: seq<Bytes>): nat { ChunksPeak(g, Fresh(), 0, chunks) }

  lemma OneChunk(g: Settings, b: Buffers, peak: nat, s: Bytes)
    ensures ChunksPeak(g, b, peak, [s]) == ChunkPeak(g, b, peak, s) && Concat([s]) == s
  {
    hide TakeBytes, ChunkPeak;
    assert [s][1..] == [];
    assert ChunksPeak(g, TakeBytes(g, b, s), ChunkPeak(g, b, peak, s), []) == ChunkPeak(g, b, peak, s);
  }

  /** One chunk gives the least mark of all chunkings, single bytes the greatest. */
  lemma PeakRange(g: Settings, chunks: seq<Bytes>)
    requires 0 < g.max
    ensures var s := Concat(chunks); var ev, lines := Fresh().ev, Split(s);
      && ReportedPeak(g, [s]) == FittingPeak(g, ev, lines) <= ReportedPeak(g, chunks)
      && ReportedPeak(g, chunks) <= ReportedPeak(g, Singles(s))
         == Max(FittingPeak(g, ev, lines), LongPeak(g, ev, lines))
  {
    var s := Concat(chunks);
    OneChunk(g, Fresh(), 0, s);
    assert Open(g, Fresh().ev, []) == Fresh();
    hide TakeBytes, ChunkPeak, BytePeak, FittingPeak, LongPeak, Split, Concat, Singles, ChunksPeak;
    OneChunkPeak(g, Fresh().ev, 0, s);
    ByteMarks(g, Fresh().ev, s);
    ChunksAboveOne(g, Fresh(), 0, chunks);
    ChunksBelowBytes(g, Fresh(), 0, chunks);
    SinglesPeak(g, Fresh(), 0, s);
  }

  /** All chunkings of a byte string leave the same mark if and only if its overlong lines are hidden. */
  lemma PeakIgnoresChunkingExactly(g: Settings, s: Bytes)
    requires 0 < g.max
    ensures (forall a, b | Concat(a) == s && Concat(b) == s :: ReportedPeak(g, a) == ReportedPeak(g, b))
      <==> LongLinesHidden(g, s)
  {
    var ev, lines := Fresh().ev, Split(s);
    LongPeakBelow(g, ev, lines, FittingPeak(g, ev, lines));
    OneChunk(g, Fresh(), 0, s);
    SinglesJoin(s);
    hide ReportedPeak, Singles, LongPeak, FittingPeak, LongMark, Split, Concat;
    PeakRange(g, [s]);
    forall a | Concat(a) == s
      ensures ReportedPeak(g, [s]) <= ReportedPeak(g, a) <= ReportedPeak(g, Singles(s))
    {
      PeakRange(g, a);
    }
  }

  /** One overlong line by itself: nothing buffered in one chunk, a full buffer byte by byte. */
  lemma OneOverlongLine(g: Settings, s: Bytes)
    requires 0 < g.max < |s| && LF !in s
    ensures ReportedPeak(g, [s]) == 0 && ReportedPeak(g, Singles(s)) == g.max
  {
    var ev := Fresh().ev;
    LfFree(s);
    SplitAtLf(s);
    assert [s][1..] == [];
    assert FittingPeak(g, TakeRaw(g, ev, s), []) == 0 == LongPeak(g, TakeRaw(g, ev, s), []);
    assert FittingPeak(g, ev, [s]) == 0 && LongPeak(g, ev, [s]) == g.max;
    OneChunk(g, Fresh(), 0, s);
    PeakRange(g, [s]);
  }
}
