/** The capture object: chunks in, bounded buffers inside, the whole-string parse out. */
module SseCapture {
  import opened Common
  import opened Chunks
  import opened SseEvents
  import opened SseStream

  /** Index of the first newline, or the length. */
  function NextLf(s: Bytes): (n: nat)
    ensures n <= |s| && LF !in s[..n] && (n < |s| ==> s[n] == LF)
  {
    if s == [] || s[0] == LF then 0
    else
      var n := NextLf(s[1..]);
      assert s[..n + 1] == [s[0]] + s[1..][..n];
      n + 1
  }

  // ---- the high-water mark of buffered bytes --------------------------------------------

  function Max(a: nat, b: nat): nat { if a >= b then a else b }

  function Buffered(b: Buffers): nat { if b.lineDropped then 0 else |b.line| + |b.ev.data| }

  /** The mark after one chunk: it is measured once per newline-free piece. */
  function ChunkPeak(g: Settings, b: Buffers, peak: nat, chunk: Bytes): nat
    decreases |chunk|
  {
    if chunk == [] then peak
    else
      var n := NextLf(chunk);
      var b1 := Extend(g, b, chunk[..n]);
      var peak1 := Max(peak, Buffered(b1));
      if n == |chunk| then peak1 else ChunkPeak(g, EndLine(g, b1), peak1, chunk[n + 1..])
  }

  function ChunksPeak(g: Settings, b: Buffers, peak: nat, chunks: seq<Bytes>): nat
    decreases |chunks|
  {
    if chunks == [] then peak
    else ChunksPeak(g, TakeBytes(g, b, chunks[0]), ChunkPeak(g, b, peak, chunks[0]), chunks[1..])
  }

  /** Some line outgrew its bound. */
  predicate Drops(g: Settings, b: Buffers, s: Bytes)
    decreases |s|
  {
    b.lineDropped || (s != [] && Drops(g, TakeByte(g, b, s[0]), s[1..]))
  }

  /** A line is dropped exactly when some raw piece between newlines is overlong. */
  lemma {:induction false} DropsExactly(g: Settings, ev: Building, part: Bytes, s: Bytes)
    requires !LongLine(g, part)
    ensures Drops(g, Open(g, ev, part), s) <==> exists l :: l in Prepend(part, Split(s)) && LongLine(g, l)
    decreases |s|
  {
    if s == [] {
      assert part + [] == part;
      assert Prepend(part, Split(s)) == [part];
    } else if s[0] == LF {
      NewlineEnds(g, ev, part);
      DropsExactly(g, TakeRaw(g, ev, part), [], s[1..]);
      PrependNothing(Split(s[1..]));
      PrependToEmpty(part, Split(s[1..]));
    } else {
      PrependTwice(part, [s[0]], Split(s[1..]));
      if LongLine(g, part + [s[0]]) {
        assert Drops(g, TakeByte(g, Open(g, ev, part), s[0]), s[1..]);
        var pieces := Prepend(part + [s[0]], Split(s[1..]));
        assert pieces[0] in pieces && LongLine(g, pieces[0]);
      } else {
        DropsExactly(g, ev, part + [s[0]], s[1..]);
      }
    }
  }

  // ---- chunking -------------------------------------------------------------------------

  function TakeChunks(g: Settings, b: Buffers, chunks: seq<Bytes>): Buffers
    decreases |chunks|
  {
    if chunks == [] then b else TakeChunks(g, TakeBytes(g, b, chunks[0]), chunks[1..])
  }

  lemma {:induction false} ChunksAreConcat(g: Settings, b: Buffers, chunks: seq<Bytes>)
    ensures TakeChunks(g, b, chunks) == TakeBytes(g, b, Concat(chunks))
    decreases |chunks|
  {
    if chunks != [] {
      ConcatFirst(chunks);
      TakeBytesConcat(g, b, chunks[0], Concat(chunks[1..]));
      ChunksAreConcat(g, TakeBytes(g, b, chunks[0]), chunks[1..]);
    }
  }

  /** Any chunking of a byte string ends with the whole-string parse of that byte string. */
  lemma AnyChunkingIsWhole(g: Settings, chunks: seq<Bytes>)
    requires 0 < g.max
    ensures Finish(g, TakeChunks(g, Fresh(), chunks)) == WholeParse(g, Concat(chunks))
  {
    ChunksAreConcat(g, Fresh(), chunks);
    StreamingIsWhole(g, Concat(chunks));
  }

  lemma TakeLf(g: Settings, b: Buffers, s: Bytes)
    requires s != [] && s[0] == LF
    ensures TakeBytes(g, b, s) == TakeBytes(g, EndLine(g, b), s[1..])
  {
    hide EndLine, Extend;
  }

  lemma NothingTaken(g: Settings, b: Buffers)
    ensures TakeBytes(g, b, []) == b
  {
  }

  lemma NoPeak(g: Settings, b: Buffers, peak: nat)
    ensures ChunkPeak(g, b, peak, []) == peak
  {
  }

  lemma ExtendNothing(g: Settings, b: Buffers)
    requires |b.line| <= g.max
    ensures Extend(g, b, []) == b
  {
    assert b.line + [] == b.line;
  }

  /** One round of the feeding loop: buffer up to the newline, then end the line. */
  lemma FeedStep(g: Settings, b: Buffers, peak: nat, rest: Bytes)
    requires |b.line| <= g.max && rest != []
    ensures var n := NextLf(rest); var b1 := Extend(g, b, rest[..n]); var peak1 := Max(peak, Buffered(b1));
      if n == |rest| then
        TakeBytes(g, b, rest) == TakeBytes(g, b1, []) && ChunkPeak(g, b, peak, rest) == ChunkPeak(g, b1, peak1, [])
      else
        && TakeBytes(g, b, rest) == TakeBytes(g, EndLine(g, b1), rest[n + 1..])
        && ChunkPeak(g, b, peak, rest) == ChunkPeak(g, EndLine(g, b1), peak1, rest[n + 1..])
  {
    hide TakeBytes, Extend, EndLine, Buffered, NextLf;
    var n := NextLf(rest);
    var b1 := Extend(g, b, rest[..n]);
    assert rest == rest[..n] + rest[n..];
    TakePiece(g, b, rest[..n]);
    TakeBytesConcat(g, b, rest[..n], rest[n..]);
    ExtendNothing(g, b);
    if n < |rest| {
      assert rest[n..][1..] == rest[n + 1..];
      TakeLf(g, b1, rest[n..]);
    } else {
      NothingTaken(g, b1);
    }
  }

  // ---- the object -----------------------------------------------------------------------

  class SseUsageCapture {
    const g: Settings
    var line: Bytes
    var data: Bytes
    var lineDropped: bool
    var eventDropped: bool
    var hasData: bool
    var finished: bool
    var tally: Tally
    var maxBuffered: nat
    /** Everything fed so far. */
    ghost var fed: Bytes

    ghost function View(): Buffers
      reads this
    {
      Buffers(line, lineDropped, Building(data, eventDropped, hasData, tally))
    }

    ghost predicate Valid()
      reads this
    {
      && 0 < g.max
      && |line| <= g.max && |data| <= g.max && maxBuffered <= 2 * g.max
      && (!finished ==> View() == TakeBytes(g, Fresh(), fed))
      && (finished ==> tally == WholeParse(g, fed))
    }

    constructor (g: Settings)
      requires 0 < g.max
      ensures Valid() && this.g == g && fed == [] && !finished && maxBuffered == 0
    {
      this.g := g;
      line, data := [], [];
      lineDropped, eventDropped, hasData, finished := false, false, false, false;
      tally, maxBuffered := NOTHING_SEEN, 0;
      fed := [];
    }

    /** Takes one chunk; a completed capture refuses it and stays as it is. */
    method Feed(chunk: Bytes) returns (accepted: bool)
      requires Valid()
      modifies this
      ensures Valid() && finished == old(finished) && accepted == !finished
      ensures fed == old(fed) + (if accepted then chunk else [])
      ensures !accepted ==> tally == old(tally) && maxBuffered == old(maxBuffered)
      ensures accepted ==> maxBuffered == ChunkPeak(g, old(View()), old(maxBuffered), chunk)
    {
      if finished {
        assert fed == fed + [];
        return false;
      }
      TakeBytesConcat(g, Fresh(), fed, chunk);
      Consume(chunk);
      fed := fed + chunk;
      return true;
    }

    /** The feeding loop: buffer up to each newline, then end the line. */
    method Consume(chunk: Bytes)
      requires Bounded(g, View()) && maxBuffered <= 2 * g.max
      modifies `line, `lineDropped, `data, `eventDropped, `hasData, `tally, `maxBuffered
      ensures View() == TakeBytes(g, old(View()), chunk) && Bounded(g, View())
      ensures maxBuffered == ChunkPeak(g, old(View()), old(maxBuffered), chunk) <= 2 * g.max
    {
      hide TakeBytes, ChunkPeak;
      var start := 0;
      ghost var rest := chunk;
      ghost var goal := TakeBytes(g, View(), chunk);
      ghost var goalPeak := ChunkPeak(g, View(), maxBuffered, chunk);
      while start < |chunk|
        invariant 0 <= start <= |chunk| && rest == chunk[start..]
        invariant Bounded(g, View()) && maxBuffered <= 2 * g.max
        invariant TakeBytes(g, View(), rest) == goal
        invariant ChunkPeak(g, View(), maxBuffered, rest) == goalPeak
      {
        var taken := ConsumePiece(chunk[start..]);
        assert chunk[start..][taken..] == chunk[start + taken..];
        start := start + taken;
        rest := rest[taken..];
      }
      NothingTaken(g, View());
      NoPeak(g, View(), maxBuffered);
    }

    /** One round: everything up to and including the next newline. */
    method ConsumePiece(rest: Bytes) returns (taken: nat)
      requires rest != [] && Bounded(g, View()) && maxBuffered <= 2 * g.max
      modifies `line, `lineDropped, `data, `eventDropped, `hasData, `tally, `maxBuffered
      ensures 0 < taken <= |rest|
      ensures TakeBytes(g, View(), rest[taken..]) == TakeBytes(g, old(View()), rest)
      ensures ChunkPeak(g, View(), maxBuffered, rest[taken..]) == ChunkPeak(g, old(View()), old(maxBuffered), rest)
      ensures Bounded(g, View()) && maxBuffered <= 2 * g.max
    {
      hide TakeBytes, ChunkPeak, Extend, EndLine, NextLf;
      var n := NextLf(rest);
      FeedStep(g, View(), maxBuffered, rest);
      TakePart(rest[..n]);
      if n == |rest| {
        assert rest[n..] == [];
        return n;
      }
      FinishLine();
      return n + 1;
    }

    /** Buffers a newline-free piece of the current line, or drops the line when it outgrows its bound. */
    method TakePart(piece: Bytes)
      requires Bounded(g, View()) && maxBuffered <= 2 * g.max
      modifies `line, `lineDropped, `eventDropped, `maxBuffered
      ensures View() == Extend(g, old(View()), piece) && Bounded(g, View())
      ensures maxBuffered == Max(old(maxBuffered), Buffered(View())) <= 2 * g.max
    {
      if !lineDropped {
        if |line| + |piece| > g.max {
          line := [];
          lineDropped, eventDropped := true, true;
        } else {
          line := line + piece;
          maxBuffered := Max(maxBuffered, |line| + |data|);
        }
      }
    }

    method FinishLine()
      requires Bounded(g, View())
      modifies `line, `lineDropped, `data, `eventDropped, `hasData, `tally
      ensures View() == EndLine(g, old(View())) && Bounded(g, View())
    {
      var raw := line;
      line := [];
      if lineDropped {
        lineDropped := false;
        return;
      }
      if Blank(raw) {
        DispatchEvent();
      } else if IsData(raw) {
        var value := DataValue(raw);
        if |data| + |value| + (if hasData then 1 else 0) > g.max {
          eventDropped := true;
          data := [];
        } else if !eventDropped {
          data := data + (if hasData then [LF] else []) + value;
        }
        hasData := true;
      }
    }

    method DispatchEvent()
      modifies `data, `eventDropped, `hasData, `tally
      ensures Building(data, eventDropped, hasData, tally) == Dispatch(g, old(View()).ev)
    {
      if eventDropped {
        tally := tally.(oversized := tally.oversized + 1);
      } else if hasData {
        tally := Observe(g.loads, g.protocol, tally, data);
      }
      data := [];
      hasData, eventDropped := false, false;
    }

    /** Ends the input once; what it then reports is the whole-string parse of everything fed. */
    method Result() returns (usage: StrictUsage)
      requires Valid()
      modifies this
      ensures Valid() && finished && fed == old(fed)
      ensures tally == WholeParse(g, fed)
      ensures usage == ParseUsage(g.protocol, WholeParse(g, fed).latest)
      ensures maxBuffered == old(maxBuffered)
    {
      if !finished {
        BuffersBounded(g, Fresh(), fed);
        if line != [] || lineDropped {
          FinishLine();
        }
        DispatchEvent();
        finished := true;
        StreamingIsWhole(g, fed);
      }
      usage := ParseUsage(g.protocol, tally.latest);
    }

    /** Complete means the whole stream ended in one clean terminal. */
    method Complete() returns (complete: bool)
      requires Valid()
      ensures complete <==> finished && CleanlyComplete(g.protocol, WholeParse(g, fed))
    {
      complete := finished && CleanlyComplete(g.protocol, tally);
    }
  }
}
