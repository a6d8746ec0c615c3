/**
 The credential relay as a transition system. Every lock block of the request handler is one
 atomic step; what a handler does outside the lock (writing its record's state) is a step of its
 own, so that other handlers can run in between. An attempt carries its handler's locals: the
 forwarded body (standing for its SHA-256 digest, which is injective) and its program counter.
 */
module RelayProtocol {
  import opened Common

  datatype Config = Config(
    maxRequests: int, maxBodyBytes: int, maxOutputTokens: int,
    maxInputTotal: Option<int>, maxOutputTotal: Option<int>, maxPeakMissUsd: Option<int>,
    inPrice: int, cachedPrice: int, outPrice: int,
    intervalMs: int, maxRetries: int)

  /** The argument checks of the relay's constructor. */
  predicate ValidConfig(c: Config) {
    && 0 < c.maxRequests && 0 < c.maxBodyBytes && 0 < c.maxOutputTokens
    && (c.maxPeakMissUsd.Some? ==> 0 < c.maxPeakMissUsd.value)
    && 0 < c.inPrice && 0 < c.cachedPrice && 0 < c.outPrice
    && 0 <= c.intervalMs <= 60_000
    && 0 <= c.maxRetries <= 4
  }

  datatype Stop =
    | Closed | StopUsageUnknown | BudgetExceeded | RequestLimit | InputLimit | OutputLimit | PriceLimit

  datatype RecordState = Unknown | Completed | UsageUnknown

  /** The usage object of a finished response; None stands for a missing or non-integer field. */
  datatype RawUsage = RawUsage(prompt: Option<int>, completion: Option<int>, cached: Option<int>)
  datatype Usage = Usage(input: int, cached: int, output: int)

  /** Where the handler of an admitted attempt stands. */
  datatype Phase =
    | Sending              // before any response header was forwarded
    | Streaming            // the response is being forwarded
    | SettledInLock        // settlement block done, record not yet "completed"
    | GapInLock            // usage-gap block done, record not yet "usage_unknown"
    | Probed(granted: bool) // a pre-response 408 went through the retry-grant block
    | Leaving              // everything but the final active-call decrement is done
    | Gone

  datatype Attempt = Attempt(
    body: Bytes, cap: int, sendAt: int, retryOf408: bool,
    state: RecordState, retryable408: bool, activeAtClose: bool,
    settled: Option<Usage>, phase: Phase)

  datatype State = State(
    inReserved: int, outReserved: int,
    inCommitted: int, cachedCommitted: int, outCommitted: int,
    budgetUnknown: bool, budgetExceeded: bool,
    retriesUsed: int, retryBody: Option<Bytes>, recovered: bool, nonRetryable: bool,
    rejections: map<Stop, nat>, attempts: seq<Attempt>,
    activeCalls: int, closed: bool, nextUpstreamAt: int)

  const FRAMING_MARGIN := 4096

  function Init(): State {
    State(0, 0, 0, 0, 0, false, false, 0, None, false, false, map[], [], 0, false, 0)
  }

  function Reservation(body: Bytes): int { |body| + FRAMING_MARGIN }

  function PeakCost(c: Config, input: int, output: int): int {
    c.inPrice * input + c.outPrice * output
  }

  predicate Over(limit: Option<int>, amount: int) { limit.Some? && amount > limit.value }

  /** Does this much input and output go past one of the three spending caps? */
  predicate OverInput(c: Config, input: int) { Over(c.maxInputTotal, input) }
  predicate OverOutput(c: Config, output: int) { Over(c.maxOutputTotal, output) }
  predicate OverPrice(c: Config, input: int, output: int) {
    c.maxPeakMissUsd.Some? && PeakCost(c, input, output) > c.maxPeakMissUsd.value * 1_000_000_000
  }
  predicate OverAny(c: Config, input: int, output: int) {
    OverInput(c, input) || OverOutput(c, output) || OverPrice(c, input, output)
  }

  // ---- admission ------------------------------------------------------------------------

  predicate RetriesSame(s: State, body: Bytes) { s.retryBody == Some(body) }

  predicate UnknownBlocked(s: State, body: Bytes) {
    || s.nonRetryable
    || (s.retryBody.Some? && !RetriesSame(s, body))
    || (s.budgetUnknown && !s.recovered && !RetriesSame(s, body))
  }

  function StopReason(c: Config, s: State, body: Bytes, cap: int): Option<Stop> {
    var input := s.inCommitted + s.inReserved + Reservation(body);
    var output := s.outCommitted + s.outReserved + cap;
    if s.closed then Some(Closed)
    else if UnknownBlocked(s, body) then Some(StopUsageUnknown)
    else if s.budgetExceeded then Some(BudgetExceeded)
    else if |s.attempts| >= c.maxRequests then Some(RequestLimit)
    else if OverInput(c, input) then Some(InputLimit)
    else if OverOutput(c, output) then Some(OutputLimit)
    else if OverPrice(c, input, output) then Some(PriceLimit)
    else None
  }

  function Max(a: int, b: int): int { if a >= b then a else b }

  function NewAttempt(s: State, body: Bytes, cap: int, now: int): Attempt {
    Attempt(body, cap, Max(now, s.nextUpstreamAt), RetriesSame(s, body),
            Unknown, false, false, None, Sending)
  }

  function Admit(c: Config, s: State, body: Bytes, cap: int, now: int): State {
    match StopReason(c, s, body, cap)
    case Some(reason) =>
      var seen := if reason in s.rejections then s.rejections[reason] else 0;
      s.(rejections := s.rejections[reason := seen + 1])
    case None => Admitted(c, s, body, cap, now)
  }

  /** The recorded attempt holds its reservation and its send slot, and consumes a matching retry grant. */
  function Admitted(c: Config, s: State, body: Bytes, cap: int, now: int): State {
    var a := NewAttempt(s, body, cap, now);
    s.(retryBody := if RetriesSame(s, body) then None else s.retryBody,
       nextUpstreamAt := a.sendAt + c.intervalMs,
       attempts := s.attempts + [a],
       inReserved := s.inReserved + Reservation(body),
       outReserved := s.outReserved + cap,
       activeCalls := s.activeCalls + 1)
  }

  // ---- the handler of an admitted attempt -----------------------------------------------

  function WithAttempt(s: State, k: nat, a: Attempt): State
    requires k < |s.attempts|
  {
    s.(attempts := s.attempts[k := a])
  }

  function SetPhase(s: State, k: nat, p: Phase): State
    requires k < |s.attempts|
  {
    WithAttempt(s, k, s.attempts[k].(phase := p))
  }

  predicate ValidRawUsage(u: Option<RawUsage>) {
    && u.Some? && u.value.prompt.Some? && u.value.completion.Some? && u.value.cached.Some?
    && 0 <= u.value.prompt.value && 0 <= u.value.completion.value
    && 0 <= u.value.cached.value <= u.value.prompt.value
  }

  function ToUsage(u: RawUsage): Usage
    requires ValidRawUsage(Some(u))
  {
    Usage(u.prompt.value, u.cached.value, u.completion.value)
  }

  /** The settlement block: the reservation is released and the actual usage is committed. */
  function Settle(c: Config, s: State, k: nat, u: Usage): State
    requires k < |s.attempts|
  {
    var a := s.attempts[k];
    var input := s.inCommitted + u.input;
    var output := s.outCommitted + u.output;
    s.(inReserved := s.inReserved - Reservation(a.body),
       outReserved := s.outReserved - a.cap,
       inCommitted := input,
       cachedCommitted := s.cachedCommitted + u.cached,
       outCommitted := output,
       recovered := s.recovered || a.retryOf408,
       budgetExceeded := OverAny(c, input, output),
       attempts := s.attempts[k := a.(settled := Some(u), phase := SettledInLock)])
  }

  /** The usage-gap block: a finished response without trustworthy usage freezes the trial. */
  function Gap(s: State, k: nat): State
    requires k < |s.attempts|
  {
    SetPhase(s, k, GapInLock).(budgetUnknown := true, nonRetryable := true)
  }

  /** A response that ended: settle its usage, or record the gap. */
  function FinishResponse(c: Config, s: State, k: nat, u: Option<RawUsage>): State
    requires k < |s.attempts|
  {
    if ValidRawUsage(u) then Settle(c, s, k, ToUsage(u.value)) else Gap(s, k)
  }

  /** The first block of a pre-response HTTP 408: at most maxRetries exact retries are granted. */
  function Grant408(c: Config, s: State, k: nat): State
    requires k < |s.attempts|
  {
    var a := s.attempts[k];
    if s.retriesUsed < c.maxRetries then
      WithAttempt(s, k, a.(retryable408 := true, phase := Probed(true)))
      .(retriesUsed := s.retriesUsed + 1, retryBody := Some(a.body))
    else
      SetPhase(s, k, Probed(false))
  }

  /** The last block of every failed attempt; only a granted 408 avoids the permanent freeze. */
  function Fail(s: State, k: nat): State
    requires k < |s.attempts|
  {
    SetPhase(s, k, Leaving)
    .(budgetUnknown := true,
      nonRetryable := s.nonRetryable || s.attempts[k].phase != Probed(true))
  }

  function WriteState(s: State, k: nat): State
    requires k < |s.attempts|
  {
    var a := s.attempts[k];
    WithAttempt(s, k, a.(state := if a.phase.SettledInLock? then Completed else UsageUnknown,
                         phase := Leaving))
  }

  function Leave(s: State, k: nat): State
    requires k < |s.attempts|
  {
    SetPhase(s, k, Gone).(activeCalls := s.activeCalls - 1)
  }

  // ---- closing --------------------------------------------------------------------------

  function MarkAttempt(a: Attempt): Attempt {
    if a.state.Unknown? then a.(state := UsageUnknown, activeAtClose := true) else a
  }

  function MarkAll(s: seq<Attempt>): (r: seq<Attempt>) {
    seq(|s|, i requires 0 <= i < |s| => MarkAttempt(s[i]))
  }

  function MarkUnsettled(s: State): State {
    if s.activeCalls <= 0 then s
    else s.(budgetUnknown := true, nonRetryable := true, attempts := MarkAll(s.attempts))
  }

  // ---- the transition system ------------------------------------------------------------

  datatype Event =
    | EvAdmit(body: Bytes, cap: int, now: int)
    | EvRespond(k: nat)
    | EvFinish(k: nat, usage: Option<RawUsage>)
    | EvGrant408(k: nat)
    | EvFail(k: nat)
    | EvWriteState(k: nat)
    | EvLeave(k: nat)
    | EvClose
    | EvMark

  ghost predicate Enabled(c: Config, s: State, e: Event) {
    match e
    case EvAdmit(body, cap, _) => |body| <= c.maxBodyBytes && 0 < cap <= c.maxOutputTokens
    case EvRespond(k) => k < |s.attempts| && s.attempts[k].phase.Sending?
    case EvFinish(k, _) => k < |s.attempts| && s.attempts[k].phase.Streaming?
    case EvGrant408(k) => k < |s.attempts| && s.attempts[k].phase.Sending?
    case EvFail(k) =>
      k < |s.attempts| && (s.attempts[k].phase.Sending? || s.attempts[k].phase.Streaming?
                           || s.attempts[k].phase.Probed?)
    case EvWriteState(k) =>
      k < |s.attempts| && (s.attempts[k].phase.SettledInLock? || s.attempts[k].phase.GapInLock?)
    case EvLeave(k) => k < |s.attempts| && s.attempts[k].phase.Leaving?
    case EvClose => true
    case EvMark => true
  }

  ghost function Next(c: Config, s: State, e: Event): State
    requires Enabled(c, s, e)
  {
    match e
    case EvAdmit(body, cap, now) => Admit(c, s, body, cap, now)
    case EvRespond(k) => SetPhase(s, k, Streaming)
    case EvFinish(k, u) => FinishResponse(c, s, k, u)
    case EvGrant408(k) => Grant408(c, s, k)
    case EvFail(k) => Fail(s, k)
    case EvWriteState(k) => WriteState(s, k)
    case EvLeave(k) => Leave(s, k)
    case EvClose => s.(closed := true)
    case EvMark => MarkUnsettled(s)
  }

  /** es is a run from s to t: any interleaving of the steps of any number of handlers. */
  ghost predicate Reaches(c: Config, s: State, es: seq<Event>, t: State)
    decreases |es|
  {
    if es == [] then s == t
    else Enabled(c, s, es[0]) && Reaches(c, Next(c, s, es[0]), es[1..], t)
  }

  // ---- the verdict over a finished run --------------------------------------------------

  predicate Unresolved(a: Attempt) { !a.state.Completed? }

  ghost predicate NoneUnresolved(s: State) {
    forall i | 0 <= i < |s.attempts| :: !Unresolved(s.attempts[i])
  }

  ghost predicate OnlyUnresolved(s: State, u: nat) {
    u < |s.attempts| && Unresolved(s.attempts[u])
    && forall i | 0 <= i < |s.attempts| && i != u :: !Unresolved(s.attempts[i])
  }

  ghost predicate CompletedRetry(s: State, i: int) {
    0 <= i < |s.attempts| && s.attempts[i].state.Completed? && s.attempts[i].retryOf408
  }

  /** relay_usage_settled. */
  ghost predicate UsageSettled(s: State) {
    && s.activeCalls <= 0
    && (if NoneUnresolved(s) then s.inReserved == 0 && s.outReserved == 0
        else
          && s.recovered
          && (exists i :: CompletedRetry(s, i))
          && (exists u: nat :: OnlyUnresolved(s, u) && s.attempts[u].retryable408))
  }
}
