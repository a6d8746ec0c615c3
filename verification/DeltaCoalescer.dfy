/**
 Coalescing streaming text into flush windows, with a one-shot timer that may fire early, late or
 after it was disposed. Each operation runs under the gate; its clock readings are parameters.
 */
module DeltaCoalescer {
  import opened Common
  import opened Chunks

  datatype Settings = Settings(budget: int, interval: int)

  /** NoTimer is a null timer; a timer that has fired stays until it is changed or disposed. */
  datatype Timer = NoTimer | Timer(due: Option<int>)

  datatype Buffer = Buffer(pending: string, chunks: seq<string>, lastFlush: int, deadline: int, timer: Timer)

  // ---- the operations -------------------------------------------------------------------

  function Flushed(b: Buffer, now: int): Buffer {
    if b.pending == "" then b else Buffer("", b.chunks + [b.pending], now, b.deadline, NoTimer)
  }

  /** now is read for the delay, then for the flush if the deadline has already passed. */
  function Arm(g: Settings, b: Buffer, now: int, flushNow: int): Buffer {
    var deadline := b.lastFlush + g.interval;
    if b.pending == "" then b
    else if deadline - now <= 0 then Flushed(b, flushNow)
    else b.(deadline := deadline, timer := Timer(Some(now + (deadline - now))))
  }

  function Appended(g: Settings, b: Buffer, text: string, now: int, flushNow: int): Buffer {
    if text == "" then b
    else
      var longer := b.(pending := b.pending + text);
      if |longer.pending| >= g.budget then Flushed(longer, flushNow) else Arm(g, longer, now, flushNow)
  }

  function Disposed(b: Buffer): Buffer { b.(timer := NoTimer) }

  /** The timer callback. */
  function IfDue(b: Buffer, now: int, again: int, flushNow: int): Buffer {
    if b.pending == "" then b
    else if now < b.deadline && b.deadline - again > 0 then
      if b.timer.NoTimer? then b else b.(timer := Timer(Some(again + (b.deadline - again))))
    else Flushed(b, flushNow)
  }

  // ---- runs -----------------------------------------------------------------------------

  /** queued counts callbacks that fired and wait for the gate; sent is all text ever appended;
      orphaned says that Dispose took the timer from pending text that has not been armed again. */
  datatype State = State(buf: Buffer, queued: nat, now: int, sent: string, orphaned: bool)

  datatype Event =
    | DoAppend(text: string, now: int, flushNow: int)
    | DoFlush(now: int)
    | DoDispose
    | Fire
    | Callback(now: int, again: int, flushNow: int)
    | Tick(now: int)

  function Init(now: int): State { State(Buffer("", [], now, 0, NoTimer), 0, now, "", false) }

  /** A timer may fire at any moment after it is armed. */
  predicate Enabled(s: State, e: Event) {
    match e
    case DoAppend(_, now, flushNow) => s.now <= now <= flushNow
    case DoFlush(now) => s.now <= now
    case DoDispose => true
    case Fire => s.buf.timer.Timer? && s.buf.timer.due.Some?
    case Callback(now, again, flushNow) => s.queued > 0 && s.now <= now <= again <= flushNow
    case Tick(now) => s.now <= now
  }

  function Next(g: Settings, s: State, e: Event): State
    requires Enabled(s, e)
  {
    match e
    case DoAppend(text, now, flushNow) =>
      State(Appended(g, s.buf, text, now, flushNow), s.queued, flushNow, s.sent + text, s.orphaned && text == "")
    case DoFlush(now) => State(Flushed(s.buf, now), s.queued, now, s.sent, false)
    case DoDispose => s.(buf := Disposed(s.buf), orphaned := s.buf.pending != "")
    case Fire => s.(buf := s.buf.(timer := Timer(None)), queued := s.queued + 1)
    case Callback(now, again, flushNow) =>
      var buf := IfDue(s.buf, now, again, flushNow);
      State(buf, s.queued - 1, flushNow, s.sent, s.orphaned && buf.pending != "")
    case Tick(now) => s.(now := now)
  }

  ghost predicate Reaches(g: Settings, s: State, es: seq<Event>, t: State)
    decreases |es|
  {
    if es == [] then s == t else Enabled(s, es[0]) && Reaches(g, Next(g, s, es[0]), es[1..], t)
  }

  ghost predicate Inv(g: Settings, s: State) {
    var b := s.buf;
    && Concat(b.chunks) + b.pending == s.sent
    && (forall c | c in b.chunks :: c != "")
    && (b.pending == "" || |b.pending| < g.budget)
    && (b.pending == "" ==> b.timer.NoTimer? && !s.orphaned)
    && (b.pending != "" ==> b.deadline == b.lastFlush + g.interval)
    && (b.timer.Timer? && b.timer.due.Some? ==> b.timer.due.value == b.deadline)
    && (b.pending != "" && !s.orphaned ==> b.timer.Timer? && (b.timer.due.Some? || s.queued > 0))
  }

  lemma FlushKeepsText(b: Buffer, now: int)
    ensures Concat(Flushed(b, now).chunks) + Flushed(b, now).pending == Concat(b.chunks) + b.pending
    ensures (forall c | c in b.chunks :: c != "") ==> forall c | c in Flushed(b, now).chunks :: c != ""
    ensures Flushed(b, now).pending == ""
  {
  }

  lemma AppendKeeps(g: Settings, s: State, e: Event)
    requires Inv(g, s) && e.DoAppend? && Enabled(s, e)
    ensures Inv(g, Next(g, s, e))
  {
    hide Concat;
    if e.text != "" {
      var longer := s.buf.(pending := s.buf.pending + e.text);
      assert Concat(longer.chunks) + longer.pending == s.sent + e.text;
      FlushKeepsText(longer, e.flushNow);
    } else {
      assert s.sent + e.text == s.sent;
    }
  }

  lemma StepKeeps(g: Settings, s: State, e: Event)
    requires Inv(g, s) && Enabled(s, e)
    ensures Inv(g, Next(g, s, e))
  {
    match e
    case DoAppend(text, now, flushNow) => AppendKeeps(g, s, e);
    case DoFlush(now) => FlushKeepsText(s.buf, now); hide Concat;
    case Callback(now, again, flushNow) => FlushKeepsText(s.buf, flushNow); hide Concat;
    case _ => hide Concat;
  }

  lemma {:induction false} RunKeeps(g: Settings, s: State, es: seq<Event>, t: State)
    requires Inv(g, s) && Reaches(g, s, es, t)
    ensures Inv(g, t)
    decreases |es|
  {
    if es != [] {
      StepKeeps(g, s, es[0]);
      hide Inv;
      RunKeeps(g, Next(g, s, es[0]), es[1..], t);
    }
  }

  // ---- the promises ---------------------------------------------------------------------

  /** Never a character dropped, doubled or reordered: what was flushed, then what is pending, is what
      was appended. Between operations less than a budget of text waits, and no flush was empty. */
  lemma NothingLost(g: Settings, start: int, es: seq<Event>, t: State)
    requires Reaches(g, Init(start), es, t)
    ensures Concat(t.buf.chunks) + t.buf.pending == t.sent
    ensures t.buf.pending == "" || |t.buf.pending| < g.budget
    ensures forall c | c in t.buf.chunks :: c != ""
  {
    RunKeeps(g, Init(start), es, t);
  }

  /** Unless Dispose took its timer, waiting text has a timer armed for exactly last flush + interval or
      a callback already on its way. */
  lemma WaitingTextHasATimer(g: Settings, start: int, es: seq<Event>, t: State)
    requires Reaches(g, Init(start), es, t) && t.buf.pending != "" && !t.orphaned
    ensures t.buf.timer == Timer(Some(t.buf.lastFlush + g.interval)) || t.queued > 0
  {
    RunKeeps(g, Init(start), es, t);
  }

  /** So once the deadline has passed and due callbacks run, nothing is left waiting. */
  lemma DueCallbacksDrain(g: Settings, start: int, es: seq<Event>, t: State) returns (more: seq<Event>, u: State)
    requires Reaches(g, Init(start), es, t) && !t.orphaned && t.now >= t.buf.lastFlush + g.interval
    ensures Reaches(g, t, more, u) && u.buf.pending == "" && u.sent == t.sent && u.now == t.now && |more| <= 2
  {
    RunKeeps(g, Init(start), es, t);
    var run := Callback(t.now, t.now, t.now);
    if t.buf.pending == "" {
      more, u := [], t;
    } else if t.queued > 0 {
      more, u := [run], Next(g, t, run);
      assert more[1..] == [];
    } else {
      var fired := Next(g, t, Fire);
      more, u := [Fire, run], Next(g, fired, run);
      assert more[1..] == [run] && [run][1..] == [];
      assert Reaches(g, fired, [run], u);
    }
  }

  /** A callback that comes early, for whatever reason, neither drops text nor loses its timer. */
  lemma EarlyCallbackKeepsWaiting(g: Settings, s: State, e: Event)
    requires Inv(g, s) && e.Callback? && Enabled(s, e) && !s.orphaned && s.buf.pending != ""
    requires e.again < s.buf.lastFlush + g.interval
    ensures Next(g, s, e).buf == s.buf.(timer := Timer(Some(s.buf.lastFlush + g.interval)))
  {
  }

  /** Text orphaned by Dispose waits until someone flushes or appends: no callback re-arms it. */
  lemma OrphanWaits(g: Settings, s: State, e: Event)
    requires Inv(g, s) && s.orphaned && Enabled(s, e) && !e.DoFlush? && !e.DoAppend?
    requires e.Callback? ==> e.again < s.buf.deadline
    ensures Next(g, s, e).buf.pending == s.buf.pending && (s.buf.timer.NoTimer? ==> Next(g, s, e).buf.timer.NoTimer?)
  {
  }

  // ---- the object -----------------------------------------------------------------------

  class DeltaCoalescer {
    const settings: Settings
    var pending: string
    var chunks: seq<string>
    var lastFlush: int
    var deadline: int
    var timer: Timer

    ghost function View(): Buffer
      reads this
    {
      Buffer(pending, chunks, lastFlush, deadline, timer)
    }

    constructor (settings: Settings, now: int)
      ensures this.settings == settings && View() == Init(now).buf
    {
      this.settings := settings;
      pending, chunks, lastFlush, deadline, timer := "", [], now, 0, NoTimer;
    }

    method FlushCore(now: int)
      modifies this
      ensures View() == Flushed(old(View()), now)
    {
      if pending == "" {
        return;
      }
      var text := pending;
      pending := "";
      lastFlush := now;
      timer := NoTimer;
      chunks := chunks + [text];
    }

    method ArmTimerCore(now: int, flushNow: int)
      modifies this
      ensures View() == Arm(settings, old(View()), now, flushNow)
    {
      if pending == "" {
        return;
      }
      var due := lastFlush + settings.interval;
      var delay := due - now;
      if delay <= 0 {
        FlushCore(flushNow);
        return;
      }
      deadline := due;
      timer := Timer(Some(now + delay));
    }

    method Append(text: string, now: int, flushNow: int)
      modifies this
      ensures View() == Appended(settings, old(View()), text, now, flushNow)
    {
      if text == "" {
        return;
      }
      pending := pending + text;
      if |pending| >= settings.budget {
        FlushCore(flushNow);
        return;
      }
      ArmTimerCore(now, flushNow);
    }

    method FlushIfDue(now: int, again: int, flushNow: int)
      modifies this
      ensures View() == IfDue(old(View()), now, again, flushNow)
    {
      if pending == "" {
        return;
      }
      if now < deadline {
        var remaining := deadline - again;
        if remaining > 0 {
          if timer.Timer? {
            timer := Timer(Some(again + remaining));
          }
          return;
        }
      }
      FlushCore(flushNow);
    }

    method Flush(now: int)
      modifies this
      ensures View() == Flushed(old(View()), now) && pending == ""
    {
      FlushCore(now);
    }

    method Dispose()
      modifies this
      ensures View() == Disposed(old(View()))
    {
      timer := NoTimer;
    }
  }
}
