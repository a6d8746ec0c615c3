/**
 Two parsers of the same server-sent-event stream: the whole-string one (split into lines, group
 by blank lines, join the data fields) and the bounded one that sees a byte at a time. They agree
 on every byte string.
 */
module SseStream {
  import opened Common
  import opened SseEvents

  datatype Settings = Settings(max: nat, protocol: Protocol, loads: Decoder)

  const LF: Byte := 10
  const CR: Byte := 13

  /** The bytes of "data:". */
  const DATA: Bytes := [100, 97, 116, 97, 58]

  // ---- the whole-string parser ----------------------------------------------------------

  /** Puts more in front of the first piece. */
  function Prepend<T>(front: seq<T>, pieces: seq<seq<T>>): (r: seq<seq<T>>)
    requires pieces != []
    ensures |r| == |pieces|
  {
    [front + pieces[0]] + pieces[1..]
  }

  lemma PrependNothing<T>(pieces: seq<seq<T>>)
    requires pieces != []
    ensures Prepend([], pieces) == pieces
  {
    assert [] + pieces[0] == pieces[0];
  }

  lemma PrependToEmpty<T>(front: seq<T>, rest: seq<seq<T>>)
    ensures Prepend(front, [[]] + rest) == [front] + rest
  {
    assert ([[]] + rest)[1..] == rest;
    assert front + [] == front;
  }

  lemma PrependTwice<T>(a: seq<T>, b: seq<T>, pieces: seq<seq<T>>)
    requires pieces != []
    ensures Prepend(a, Prepend(b, pieces)) == Prepend(a + b, pieces)
  {
    assert a + (b + pieces[0]) == a + b + pieces[0];
  }

  /** The pieces between newlines; never empty. */
  function Split(s: Bytes): (r: seq<Bytes>)
    ensures r != []
  {
    if s == [] then [[]]
    else
      var rest := Split(s[1..]);
      if s[0] == LF then [[]] + rest else Prepend([s[0]], rest)
  }

  /** Raw lines: an unterminated last piece is a line when it is not empty. */
  function RawLines(s: Bytes): seq<Bytes> {
    var pieces := Split(s);
    if pieces[|pieces| - 1] == [] then pieces[..|pieces| - 1] else pieces
  }

  function StripCr(raw: Bytes): Bytes {
    if raw != [] && raw[|raw| - 1] == CR then raw[..|raw| - 1] else raw
  }

  predicate Blank(raw: Bytes) { StripCr(raw) == [] }

  predicate IsData(raw: Bytes) { DATA <= StripCr(raw) }

  /** The field value: what follows "data:" and at most one space. */
  function DataValue(raw: Bytes): Bytes
    requires IsData(raw)
  {
    var v := StripCr(raw)[5..];
    if v != [] && v[0] == 32 then v[1..] else v
  }

  /** Maximal runs of lines between blank lines; the last run may be unterminated. */
  function Groups(lines: seq<Bytes>): (r: seq<seq<Bytes>>)
    ensures r != []
  {
    if lines == [] then [[]]
    else
      var rest := Groups(lines[1..]);
      if Blank(lines[0]) then [[]] + rest else Prepend([lines[0]], rest)
  }

  function Fields(group: seq<Bytes>): seq<Bytes> {
    if group == [] then []
    else
      var init := Fields(group[..|group| - 1]);
      var last := group[|group| - 1];
      if IsData(last) then init + [DataValue(last)] else init
  }

  function Join(fields: seq<Bytes>): Bytes {
    if fields == [] then []
    else if |fields| == 1 then fields[0]
    else Join(fields[..|fields| - 1]) + [LF] + fields[|fields| - 1]
  }

  predicate LongLine(g: Settings, raw: Bytes) { |raw| > g.max }

  /** An event exceeds its bound through one raw line or through its joined data. */
  ghost predicate Oversized(g: Settings, group: seq<Bytes>) {
    (exists l :: l in group && LongLine(g, l)) || |Join(Fields(group))| > g.max
  }

  ghost function Judge(g: Settings, t: Tally, group: seq<Bytes>): Tally {
    if Oversized(g, group) then t.(oversized := t.oversized + 1)
    else if Fields(group) != [] then Observe(g.loads, g.protocol, t, Join(Fields(group)))
    else t
  }

  ghost function JudgeAll(g: Settings, t: Tally, groups: seq<seq<Bytes>>): Tally
    decreases |groups|
  {
    if groups == [] then t else JudgeAll(g, Judge(g, t, groups[0]), groups[1..])
  }

  ghost function WholeParse(g: Settings, s: Bytes): Tally {
    JudgeAll(g, NOTHING_SEEN, Groups(RawLines(s)))
  }

  // ---- the bounded incremental parser, one byte at a time -------------------------------

  /** The event under construction. */
  datatype Building = Building(data: Bytes, dropped: bool, hasData: bool, tally: Tally)

  /** The line and the event under construction. */
  datatype Buffers = Buffers(line: Bytes, lineDropped: bool, ev: Building)

  function Fresh(): Buffers { Buffers([], false, Building([], false, false, NOTHING_SEEN)) }

  function Dispatch(g: Settings, ev: Building): Building {
    var t := ev.tally;
    Building([], false, false,
             if ev.dropped then t.(oversized := t.oversized + 1)
             else if ev.hasData then Observe(g.loads, g.protocol, t, ev.data)
             else t)
  }

  function AddData(g: Settings, ev: Building, value: Bytes): Building {
    var sep := if ev.hasData then 1 else 0;
    var ev1 :=
      if |ev.data| + |value| + sep > g.max then ev.(dropped := true, data := [])
      else if !ev.dropped then ev.(data := ev.data + (if ev.hasData then [LF] else []) + value)
      else ev;
    ev1.(hasData := true)
  }

  /** A complete line that fits its bound. */
  function TakeLine(g: Settings, ev: Building, raw: Bytes): Building {
    if Blank(raw) then Dispatch(g, ev)
    else if IsData(raw) then AddData(g, ev, DataValue(raw))
    else ev
  }

  function EndLine(g: Settings, b: Buffers): Buffers {
    Buffers([], false, if b.lineDropped then b.ev else TakeLine(g, b.ev, b.line))
  }

  function Extend(g: Settings, b: Buffers, piece: Bytes): Buffers {
    if b.lineDropped then b
    else if |b.line| + |piece| > g.max then Buffers([], true, b.ev.(dropped := true))
    else b.(line := b.line + piece)
  }

  function TakeByte(g: Settings, b: Buffers, x: Byte): Buffers {
    if x == LF then EndLine(g, b) else Extend(g, b, [x])
  }

  function TakeBytes(g: Settings, b: Buffers, s: Bytes): Buffers
    decreases |s|
  {
    if s == [] then b else TakeBytes(g, TakeByte(g, b, s[0]), s[1..])
  }

  /** End of input: an unfinished line counts, and the trailing event is dispatched. */
  function Finish(g: Settings, b: Buffers): Tally {
    var b1 := if b.line != [] || b.lineDropped then EndLine(g, b) else b;
    Dispatch(g, b1.ev).tally
  }

  // ---- chunks ---------------------------------------------------------------------------

  lemma {:induction false} TakeBytesConcat(g: Settings, b: Buffers, s: Bytes, t: Bytes)
    ensures TakeBytes(g, b, s + t) == TakeBytes(g, TakeBytes(g, b, s), t)
    decreases |s|
  {
    if s == [] {
      assert s + t == t;
    } else {
      assert (s + t)[1..] == s[1..] + t;
      TakeBytesConcat(g, TakeByte(g, b, s[0]), s[1..], t);
    }
  }

  /** A piece without newlines may be appended at once. */
  lemma {:induction false} TakePiece(g: Settings, b: Buffers, piece: Bytes)
    requires LF !in piece && |b.line| <= g.max
    ensures TakeBytes(g, b, piece) == if piece == [] then b else Extend(g, b, piece)
    decreases |piece|
  {
    if piece != [] {
      var b1 := TakeByte(g, b, piece[0]);
      TakePiece(g, b1, piece[1..]);
      assert [piece[0]] + piece[1..] == piece;
      assert b.line + [piece[0]] + piece[1..] == b.line + piece;
    }
  }

  /** Both buffers stay within the bound. */
  predicate Bounded(g: Settings, b: Buffers) { |b.line| <= g.max && |b.ev.data| <= g.max }

  lemma {:induction false} BuffersBounded(g: Settings, b: Buffers, s: Bytes)
    requires Bounded(g, b)
    ensures Bounded(g, TakeBytes(g, b, s))
    decreases |s|
  {
    if s != [] { BuffersBounded(g, TakeByte(g, b, s[0]), s[1..]); }
  }

  // ---- bytes against lines --------------------------------------------------------------

  /** A whole raw line of any length. */
  function TakeRaw(g: Settings, ev: Building, raw: Bytes): Building {
    if LongLine(g, raw) then ev.(dropped := true) else TakeLine(g, ev, raw)
  }

  function TakeRaws(g: Settings, ev: Building, lines: seq<Bytes>): Building
    decreases |lines|
  {
    if lines == [] then ev else TakeRaws(g, TakeRaw(g, ev, lines[0]), lines[1..])
  }

  /** The buffers after the newline-free start of a line. */
  function Open(g: Settings, ev: Building, part: Bytes): Buffers {
    if LongLine(g, part) then Buffers([], true, ev.(dropped := true)) else Buffers(part, false, ev)
  }

  /** Byte by byte equals line by line, with the unterminated last piece left open. */
  lemma {:induction false} BytesAreLines(g: Settings, ev: Building, part: Bytes, s: Bytes)
    ensures var pieces := Prepend(part, Split(s)); var n := |pieces| - 1;
      TakeBytes(g, Open(g, ev, part), s) == Open(g, TakeRaws(g, ev, pieces[..n]), pieces[n])
    decreases |s|
  {
    if s == [] {
      assert part + [] == part;
    } else if s[0] == LF {
      NewlineEnds(g, ev, part);
      BytesAreLines(g, TakeRaw(g, ev, part), [], s[1..]);
      PrependNothing(Split(s[1..]));
      TakeRawsCons(g, ev, part, Split(s[1..]));
      PrependToEmpty(part, Split(s[1..]));
    } else {
      BytesAreLines(g, ev, part + [s[0]], s[1..]);
      PrependTwice(part, [s[0]], Split(s[1..]));
    }
  }

  lemma NewlineEnds(g: Settings, ev: Building, part: Bytes)
    ensures TakeByte(g, Open(g, ev, part), LF) == Open(g, TakeRaw(g, ev, part), [])
  {
  }

  lemma TakeRawsCons(g: Settings, ev: Building, l: Bytes, rest: seq<Bytes>)
    requires rest != []
    ensures var pieces := [l] + rest; var n := |pieces| - 1;
      && TakeRaws(g, ev, pieces[..n]) == TakeRaws(g, TakeRaw(g, ev, l), rest[..|rest| - 1])
      && pieces[n] == rest[|rest| - 1]
  {
    var pieces := [l] + rest;
    assert pieces[..|pieces| - 1][1..] == rest[..|rest| - 1];
  }

  // ---- lines against events -------------------------------------------------------------

  /** The event under construction stands for the tally so far and the lines of its group. */
  ghost predicate Represents(g: Settings, ev: Building, t: Tally, group: seq<Bytes>) {
    && ev.tally == t
    && (ev.hasData || ev.dropped ==> group != [])
    && (!ev.dropped ==> (ev.hasData <==> Fields(group) != []))
    && (ev.dropped <==> Oversized(g, group))
    && (!ev.dropped ==> ev.data == Join(Fields(group)))
  }

  lemma BlankDispatches(g: Settings, ev: Building, t: Tally, group: seq<Bytes>, line: Bytes)
    requires 0 < g.max && Represents(g, ev, t, group) && Blank(line)
    ensures Represents(g, TakeRaw(g, ev, line), Judge(g, t, group), [])
  {
    hide Observe;
  }

  lemma LineExtends(g: Settings, ev: Building, t: Tally, group: seq<Bytes>, line: Bytes)
    requires 0 < g.max && Represents(g, ev, t, group) && !Blank(line)
    ensures Represents(g, TakeRaw(g, ev, line), t, group + [line])
  {
    hide Observe, StripCr;
  }

  lemma LastGroup(g: Settings, ev: Building, t: Tally, group: seq<Bytes>)
    requires Represents(g, ev, t, group)
    ensures Dispatch(g, TakeRaws(g, ev, [])).tally == JudgeAll(g, t, Prepend(group, Groups([])))
  {
    assert group + [] == group;
    assert Prepend(group, Groups([])) == [group];
    assert JudgeAll(g, Judge(g, t, group), []) == Judge(g, t, group);
    hide Oversized, Fields, Join, Observe;
  }

  lemma JudgeFirst(g: Settings, t: Tally, group: seq<Bytes>, rest: seq<seq<Bytes>>)
    ensures JudgeAll(g, t, [group] + rest) == JudgeAll(g, Judge(g, t, group), rest)
  {
    hide Judge;
    assert ([group] + rest)[1..] == rest;
  }

  /** Line by line, then one final dispatch, equals judging the groups, the first of them already
      begun with `group`. */
  lemma {:induction false} LinesAreGroups(g: Settings, ev: Building, t: Tally, group: seq<Bytes>, lines: seq<Bytes>)
    requires 0 < g.max && Represents(g, ev, t, group)
    ensures Dispatch(g, TakeRaws(g, ev, lines)).tally == JudgeAll(g, t, Prepend(group, Groups(lines)))
    decreases |lines|
  {
    hide Represents, TakeRaw, Judge, Dispatch, Blank, JudgeAll;
    if lines == [] {
      LastGroup(g, ev, t, group);
    } else if Blank(lines[0]) {
      BlankDispatches(g, ev, t, group, lines[0]);
      LinesAreGroups(g, TakeRaw(g, ev, lines[0]), Judge(g, t, group), [], lines[1..]);
      PrependNothing(Groups(lines[1..]));
      PrependToEmpty(group, Groups(lines[1..]));
      JudgeFirst(g, t, group, Groups(lines[1..]));
    } else {
      LineExtends(g, ev, t, group, lines[0]);
      LinesAreGroups(g, TakeRaw(g, ev, lines[0]), t, group + [lines[0]], lines[1..]);
      PrependTwice(group, [lines[0]], Groups(lines[1..]));
    }
  }

  /** The unfinished last line, if any, is one more line. */
  lemma {:induction false} TakeRawsSnoc(g: Settings, ev: Building, lines: seq<Bytes>, l: Bytes)
    ensures TakeRaws(g, ev, lines + [l]) == TakeRaw(g, TakeRaws(g, ev, lines), l)
    decreases |lines|
  {
    if lines != [] {
      assert (lines + [l])[1..] == lines[1..] + [l];
      TakeRawsSnoc(g, TakeRaw(g, ev, lines[0]), lines[1..], l);
    }
  }

  /** Ending the input completes an open line and dispatches the trailing event. */
  lemma FinishOpen(g: Settings, ev: Building, pieces: seq<Bytes>)
    requires pieces != []
    ensures var n := |pieces| - 1;
      Finish(g, Open(g, TakeRaws(g, ev, pieces[..n]), pieces[n]))
      == Dispatch(g, TakeRaws(g, ev, if pieces[n] == [] then pieces[..n] else pieces)).tally
  {
    var n := |pieces| - 1;
    if pieces[n] != [] {
      TakeRawsSnoc(g, ev, pieces[..n], pieces[n]);
      assert pieces[..n] + [pieces[n]] == pieces;
    }
  }

  /** The bounded byte-at-a-time parser computes exactly the whole-string parse. */
  lemma StreamingIsWhole(g: Settings, s: Bytes)
    requires 0 < g.max
    ensures Finish(g, TakeBytes(g, Fresh(), s)) == WholeParse(g, s)
  {
    var ev0 := Fresh().ev;
    BytesAreLines(g, ev0, [], s);
    PrependNothing(Split(s));
    FinishOpen(g, ev0, Split(s));
    LinesAreGroups(g, ev0, NOTHING_SEEN, [], RawLines(s));
    PrependNothing(Groups(RawLines(s)));
  }

  // ---- the trailing event ---------------------------------------------------------------

  /** What reaches the observer of one group of lines. */
  datatype Event = TooLong | Payload(data: Bytes)

  ghost function EventOf(g: Settings, group: seq<Bytes>): seq<Event> {
    if Oversized(g, group) then [TooLong]
    else if Fields(group) != [] then [Payload(Join(Fields(group)))]
    else []
  }

  ghost function EventsOf(g: Settings, groups: seq<seq<Bytes>>): seq<Event> {
    if groups == [] then [] else EventsOf(g, groups[..|groups| - 1]) + EventOf(g, groups[|groups| - 1])
  }

  ghost function ObserveEvent(g: Settings, t: Tally, e: Event): Tally {
    match e
    case TooLong => t.(oversized := t.oversized + 1)
    case Payload(data) => Observe(g.loads, g.protocol, t, data)
  }

  ghost function ObserveAll(g: Settings, t: Tally, events: seq<Event>): Tally {
    if events == [] then t
    else ObserveEvent(g, ObserveAll(g, t, events[..|events| - 1]), events[|events| - 1])
  }

  lemma {:induction false} JudgeAllSnoc(g: Settings, t: Tally, groups: seq<seq<Bytes>>, group: seq<Bytes>)
    ensures JudgeAll(g, t, groups + [group]) == Judge(g, JudgeAll(g, t, groups), group)
    decreases |groups|
  {
    if groups == [] {
      assert groups + [group] == [group];
      assert JudgeAll(g, Judge(g, t, group), []) == Judge(g, t, group);
    } else {
      assert (groups + [group])[1..] == groups[1..] + [group];
      JudgeAllSnoc(g, Judge(g, t, groups[0]), groups[1..], group);
    }
  }

  lemma JudgingIsObserving(g: Settings, t: Tally, events: seq<Event>, group: seq<Bytes>)
    ensures Judge(g, ObserveAll(g, t, events), group) == ObserveAll(g, t, events + EventOf(g, group))
  {
    hide Oversized, Fields, Join, Observe;
    assert events + [] == events;
    assert forall e: Event :: (events + [e])[..|events|] == events;
  }

  lemma ObserveNothing(g: Settings, t: Tally)
    ensures JudgeAll(g, t, []) == t == ObserveAll(g, t, EventsOf(g, []))
  {
  }

  /** The parse is what the dispatched events leave, one after the other. */
  lemma {:induction false} JudgingObserves(g: Settings, t: Tally, groups: seq<seq<Bytes>>)
    ensures JudgeAll(g, t, groups) == ObserveAll(g, t, EventsOf(g, groups))
    decreases |groups|
  {
    hide Judge, JudgeAll, EventOf, ObserveEvent, ObserveAll;
    if groups == [] {
      ObserveNothing(g, t);
    } else {
      var init, last := groups[..|groups| - 1], groups[|groups| - 1];
      JudgingObserves(g, t, init);
      JudgeAllSnoc(g, t, init, last);
      assert groups == init + [last];
      JudgingIsObserving(g, t, EventsOf(g, init), last);
    }
  }

  /** Section 9.2.6 of the WHATWG HTML standard discards the group that no blank line ends. */
  ghost function StandardEvents(g: Settings, s: Bytes): seq<Event> {
    var groups := Groups(RawLines(s));
    EventsOf(g, groups[..|groups| - 1])
  }

  ghost function CaptureEvents(g: Settings, s: Bytes): seq<Event> { EventsOf(g, Groups(RawLines(s))) }

  /** The capture also dispatches that group: one more event exactly when it is oversized or has data. */
  lemma TrailingEventExactly(g: Settings, s: Bytes)
    ensures var groups := Groups(RawLines(s)); var last := groups[|groups| - 1];
      && StandardEvents(g, s) <= CaptureEvents(g, s)
      && (CaptureEvents(g, s) == StandardEvents(g, s) <==> !Oversized(g, last) && Fields(last) == [])
    ensures WholeParse(g, s) == ObserveAll(g, NOTHING_SEEN, CaptureEvents(g, s))
  {
    JudgingObserves(g, NOTHING_SEEN, Groups(RawLines(s)));
    hide Oversized, Fields, Groups, RawLines, JudgeAll, ObserveAll;
  }

  lemma {:induction false} NoNewline(s: Bytes)
    requires LF !in s
    ensures Split(s) == [s]
  {
    if s != [] {
      NoNewline(s[1..]);
      assert [s[0]] + s[1..] == s;
    }
  }

  /** The shortest difference: one data line and no newline. */
  lemma UnterminatedDataIsDispatched(g: Settings, value: Bytes)
    requires |value| + 5 <= g.max && LF !in value && CR !in value && (value != [] ==> value[0] != 32)
    ensures StandardEvents(g, DATA + value) == [] && CaptureEvents(g, DATA + value) == [Payload(value)]
  {
    var s := DATA + value;
    NoNewline(s);
    assert StripCr(s) == s && s[5..] == value;
    var lines := [s];
    var groups := [lines];
    assert Groups([]) == [[]];
    assert lines[1..] == [] && lines + [] == lines && lines[..0] == [];
    assert Groups(lines) == groups;
    assert Fields(lines) == [value];
    assert groups[..0] == [];
    assert EventOf(g, lines) == [Payload(value)];
    assert EventsOf(g, groups) == EventsOf(g, []) + EventOf(g, lines);
  }
}
