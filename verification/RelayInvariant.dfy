/** What every step of the relay keeps, proved by induction over whole interleaved runs. */
module RelayInvariant {
  import opened Common
  import opened Sums
  import opened RelayProtocol

  // ---- the parts a running total is made of ---------------------------------------------

  function InHold(a: Attempt): int { if a.settled.Some? then 0 else Reservation(a.body) }
  function OutHold(a: Attempt): int { if a.settled.Some? then 0 else a.cap }
  function InUsed(a: Attempt): int { if a.settled.Some? then a.settled.value.input else 0 }
  function CachedUsed(a: Attempt): int { if a.settled.Some? then a.settled.value.cached else 0 }
  function OutUsed(a: Attempt): int { if a.settled.Some? then a.settled.value.output else 0 }
  function InFlight(a: Attempt): int { if a.phase.Gone? then 0 else 1 }
  function Granted(a: Attempt): int { if a.retryable408 then 1 else 0 }
  function Retry(a: Attempt): int { if a.retryOf408 then 1 else 0 }

  /** Per attempt: how the record, the settled bit and the program counter constrain each other. */
  predicate AttemptOk(a: Attempt) {
    && 0 < a.cap
    && (a.settled.Some? ==>
          && 0 <= a.settled.value.cached <= a.settled.value.input && 0 <= a.settled.value.output
          && !a.retryable408)
    && (a.settled.Some? <==> a.phase.SettledInLock? || a.state.Completed?)
    && (a.state.Completed? ==> a.phase.Leaving? || a.phase.Gone?)
    && (a.retryable408 ==> a.phase == Probed(true) || a.phase.Leaving? || a.phase.Gone?)
    && (a.phase == Probed(true) ==> a.retryable408)
  }

  ghost predicate AttemptsOk(s: State) { forall a | a in s.attempts :: AttemptOk(a) }

  /** Conservation: the five running totals are sums over the attempts. */
  ghost predicate Conserved(s: State) {
    && s.inReserved == Sum(s.attempts, InHold)
    && s.outReserved == Sum(s.attempts, OutHold)
    && s.inCommitted == Sum(s.attempts, InUsed)
    && s.cachedCommitted == Sum(s.attempts, CachedUsed)
    && s.outCommitted == Sum(s.attempts, OutUsed)
    && s.activeCalls == Sum(s.attempts, InFlight)
  }

  /** Some attempt that was granted a retry carried exactly this body. */
  ghost predicate GrantFor(s: State, body: Bytes) {
    exists i :: 0 <= i < |s.attempts| && s.attempts[i].retryable408 && s.attempts[i].body == body
  }

  /** Every retry, taken or still pending, repeats the body of some granted 408. */
  ghost predicate RetriesBacked(s: State) {
    && (s.retryBody.Some? ==> GrantFor(s, s.retryBody.value))
    && (forall i | 0 <= i < |s.attempts| && s.attempts[i].retryOf408 :: GrantFor(s, s.attempts[i].body))
  }

  function Pending(s: State): int { if s.retryBody.Some? then 1 else 0 }

  /** Taken plus pending retries never exceed the grants, which never exceed the maximum. */
  ghost predicate RetriesBounded(c: Config, s: State) {
    && Sum(s.attempts, Retry) + Pending(s) <= s.retriesUsed
    && s.retriesUsed == Sum(s.attempts, Granted)
    && s.retriesUsed <= c.maxRetries
  }

  ghost predicate RecoveredExactly(s: State) {
    s.recovered <==> exists i :: 0 <= i < |s.attempts| && s.attempts[i].retryOf408 && s.attempts[i].settled.Some?
  }

  ghost predicate AnySettled(s: State) { exists i :: 0 <= i < |s.attempts| && s.attempts[i].settled.Some? }

  /** The flag is recomputed at every settlement, so it says whether the last one left a cap passed. */
  ghost predicate ExceededExactly(c: Config, s: State) {
    s.budgetExceeded <==> AnySettled(s) && OverAny(c, s.inCommitted, s.outCommitted)
  }

  ghost predicate Spaced(c: Config, s: State) {
    && (forall i, j | 0 <= i < j < |s.attempts| ::
          s.attempts[i].sendAt + c.intervalMs <= s.attempts[j].sendAt)
    && (forall i | 0 <= i < |s.attempts| :: s.attempts[i].sendAt + c.intervalMs <= s.nextUpstreamAt)
  }

  /** A settled attempt never used more than it had reserved. */
  predicate Honest(a: Attempt) {
    a.settled.Some? ==> a.settled.value.input <= Reservation(a.body) && a.settled.value.output <= a.cap
  }

  ghost predicate AllHonest(s: State) { forall a | a in s.attempts :: Honest(a) }

  /** Committed plus reserved amounts respect all three caps. */
  ghost predicate WithinCaps(c: Config, s: State) {
    !OverAny(c, s.inCommitted + s.inReserved, s.outCommitted + s.outReserved)
  }

  ghost predicate Capped(c: Config, s: State) {
    AllHonest(s) && s.attempts != [] ==> WithinCaps(c, s)
  }

  ghost predicate TotalsInv(c: Config, s: State) { AttemptsOk(s) && Conserved(s) && RetriesBounded(c, s) }
  ghost predicate RetryInv(s: State) { RetriesBacked(s) && RecoveredExactly(s) }
  ghost predicate SpendInv(c: Config, s: State) { ExceededExactly(c, s) && Spaced(c, s) && Capped(c, s) }

  ghost predicate Inv(c: Config, s: State) { TotalsInv(c, s) && RetryInv(s) && SpendInv(c, s) }

  // ---- one lemma per kind of step -------------------------------------------------------

  /** The effect of replacing one attempt on every sum. */
  lemma SumsAfterUpdate(s: seq<Attempt>, k: nat, a: Attempt)
    requires k < |s|
    ensures Sum(s[k := a], InHold) == Sum(s, InHold) - InHold(s[k]) + InHold(a)
    ensures Sum(s[k := a], OutHold) == Sum(s, OutHold) - OutHold(s[k]) + OutHold(a)
    ensures Sum(s[k := a], InUsed) == Sum(s, InUsed) - InUsed(s[k]) + InUsed(a)
    ensures Sum(s[k := a], CachedUsed) == Sum(s, CachedUsed) - CachedUsed(s[k]) + CachedUsed(a)
    ensures Sum(s[k := a], OutUsed) == Sum(s, OutUsed) - OutUsed(s[k]) + OutUsed(a)
    ensures Sum(s[k := a], InFlight) == Sum(s, InFlight) - InFlight(s[k]) + InFlight(a)
    ensures Sum(s[k := a], Granted) == Sum(s, Granted) - Granted(s[k]) + Granted(a)
    ensures Sum(s[k := a], Retry) == Sum(s, Retry) - Retry(s[k]) + Retry(a)
  {
    SumUpdate(s, k, a, InHold);
    SumUpdate(s, k, a, OutHold);
    SumUpdate(s, k, a, InUsed);
    SumUpdate(s, k, a, CachedUsed);
    SumUpdate(s, k, a, OutUsed);
    SumUpdate(s, k, a, InFlight);
    SumUpdate(s, k, a, Granted);
    SumUpdate(s, k, a, Retry);
  }

  lemma {:induction false} SumsAfterMark(s: seq<Attempt>)
    ensures Sum(MarkAll(s), InHold) == Sum(s, InHold)
    ensures Sum(MarkAll(s), OutHold) == Sum(s, OutHold)
    ensures Sum(MarkAll(s), InUsed) == Sum(s, InUsed)
    ensures Sum(MarkAll(s), CachedUsed) == Sum(s, CachedUsed)
    ensures Sum(MarkAll(s), OutUsed) == Sum(s, OutUsed)
    ensures Sum(MarkAll(s), InFlight) == Sum(s, InFlight)
    ensures Sum(MarkAll(s), Granted) == Sum(s, Granted)
    ensures Sum(MarkAll(s), Retry) == Sum(s, Retry)
  {
    if s != [] {
      var n := |s| - 1;
      assert MarkAll(s)[..n] == MarkAll(s[..n]);
      SumsAfterMark(s[..n]);
    }
  }

  /** Grants are only ever added, so a backed retry stays backed. */
  lemma GrantsKept(s: State, t: State)
    requires |s.attempts| <= |t.attempts|
    requires forall i | 0 <= i < |s.attempts| ::
      t.attempts[i].body == s.attempts[i].body && (s.attempts[i].retryable408 ==> t.attempts[i].retryable408)
    ensures forall b | GrantFor(s, b) :: GrantFor(t, b)
  {
  }

  /** Honesty of the later state implies honesty of the earlier one. */
  lemma HonestBefore(s: State, t: State, k: nat)
    requires AllHonest(t) && |s.attempts| <= |t.attempts|
    requires forall i | 0 <= i < |s.attempts| ::
      t.attempts[i].body == s.attempts[i].body && t.attempts[i].cap == s.attempts[i].cap
      && (s.attempts[i].settled == t.attempts[i].settled || s.attempts[i].settled.None?)
    ensures AllHonest(s)
  {
    forall a | a in s.attempts ensures Honest(a) {
      var i :| 0 <= i < |s.attempts| && s.attempts[i] == a;
      assert t.attempts[i] in t.attempts;
    }
  }

  // ---- a step that replaces one attempt -------------------------------------------------

  /** What a handler step may do to its own record: never the body, the cap or the schedule. */
  predicate SameRequest(old': Attempt, a: Attempt) {
    && a.body == old'.body && a.cap == old'.cap && a.sendAt == old'.sendAt && a.retryOf408 == old'.retryOf408
    && (old'.retryable408 ==> a.retryable408)
    && (old'.settled.Some? ==> a.settled == old'.settled)
  }

  /** The running totals move by exactly what the replaced attempt contributes. */
  predicate TotalsMove(c: Config, s: State, t: State, old': Attempt, a: Attempt) {
    && t.inReserved == s.inReserved - InHold(old') + InHold(a)
    && t.outReserved == s.outReserved - OutHold(old') + OutHold(a)
    && t.inCommitted == s.inCommitted - InUsed(old') + InUsed(a)
    && t.cachedCommitted == s.cachedCommitted - CachedUsed(old') + CachedUsed(a)
    && t.outCommitted == s.outCommitted - OutUsed(old') + OutUsed(a)
    && t.activeCalls == s.activeCalls - InFlight(old') + InFlight(a)
    && t.retriesUsed == s.retriesUsed - Granted(old') + Granted(a) <= c.maxRetries
    && Pending(t) <= Pending(s) - Granted(old') + Granted(a)
  }

  predicate RetryMoves(s: State, t: State, a: Attempt) {
    && (t.retryBody == s.retryBody || (a.retryable408 && t.retryBody == Some(a.body)))
    && t.recovered == (s.recovered || (a.retryOf408 && a.settled.Some?))
  }

  lemma UpdateTotals(c: Config, s: State, t: State, k: nat, a: Attempt)
    requires k < |s.attempts| && t.attempts == s.attempts[k := a]
    requires TotalsInv(c, s) && AttemptOk(a) && a.retryOf408 == s.attempts[k].retryOf408
    requires TotalsMove(c, s, t, s.attempts[k], a)
    ensures TotalsInv(c, t)
  {
    SumsAfterUpdate(s.attempts, k, a);
  }

  lemma UpdateRetries(s: State, t: State, k: nat, a: Attempt)
    requires k < |s.attempts| && t.attempts == s.attempts[k := a]
    requires RetryInv(s) && SameRequest(s.attempts[k], a) && RetryMoves(s, t, a)
    ensures RetryInv(t)
  {
    GrantsKept(s, t);
    assert t.attempts[k] == a;
    if t.recovered {
      if s.recovered {
        var i :| 0 <= i < |s.attempts| && s.attempts[i].retryOf408 && s.attempts[i].settled.Some?;
        assert t.attempts[i].retryOf408 && t.attempts[i].settled.Some?;
      }
    } else {
      forall i | 0 <= i < |t.attempts| && t.attempts[i].retryOf408 ensures t.attempts[i].settled.None? {
        assert i != k ==> s.attempts[i] == t.attempts[i];
      }
    }
  }

  lemma UpdateSpending(c: Config, s: State, t: State, k: nat, a: Attempt)
    requires ValidConfig(c) && k < |s.attempts| && t.attempts == s.attempts[k := a]
    requires SpendInv(c, s) && SameRequest(s.attempts[k], a)
    requires s.attempts[k].settled.None? || a.settled == s.attempts[k].settled
    requires TotalsMove(c, s, t, s.attempts[k], a) && t.nextUpstreamAt == s.nextUpstreamAt
    requires ExceededExactly(c, t)
    ensures SpendInv(c, t)
  {
    assert t.attempts[k] == a;
    if AllHonest(t) {
      HonestBefore(s, t, k);
      assert Honest(a);
      PeakCostMonotone(c, t.inCommitted + t.inReserved, t.outCommitted + t.outReserved,
                       s.inCommitted + s.inReserved, s.outCommitted + s.outReserved);
    }
  }

  lemma PeakCostMonotone(c: Config, i: int, o: int, i': int, o': int)
    requires 0 < c.inPrice && 0 < c.outPrice && i <= i' && o <= o'
    ensures PeakCost(c, i, o) <= PeakCost(c, i', o')
  {
  }

  lemma UpdateKeeps(c: Config, s: State, t: State, k: nat, a: Attempt)
    requires ValidConfig(c) && Inv(c, s) && k < |s.attempts|
    requires Moves(c, s, t, k, a) && ExceededExactly(c, t)
    ensures Inv(c, t)
  {
    UpdateTotals(c, s, t, k, a);
    UpdateRetries(s, t, k, a);
    UpdateSpending(c, s, t, k, a);
  }

  ghost predicate Moves(c: Config, s: State, t: State, k: nat, a: Attempt)
    requires k < |s.attempts|
  {
    && t.attempts == s.attempts[k := a] && AttemptOk(a) && SameRequest(s.attempts[k], a)
    && TotalsMove(c, s, t, s.attempts[k], a) && RetryMoves(s, t, a)
    && t.nextUpstreamAt == s.nextUpstreamAt
  }

  /** The facts about one attempt, drawn from the invariant, that a handler step relies on. */
  ghost predicate Steady(c: Config, s: State, k: nat) {
    && k < |s.attempts| && AttemptOk(s.attempts[k])
    && s.retriesUsed <= c.maxRetries
    && (s.attempts[k].retryOf408 && s.attempts[k].settled.Some? ==> s.recovered)
  }

  lemma InvSteady(c: Config, s: State, k: nat)
    requires Inv(c, s) && k < |s.attempts|
    ensures Steady(c, s, k)
  {
  }

  /** Every handler step replaces one attempt in the way UpdateKeeps allows. */
  lemma HandlerMoves(c: Config, s: State, e: Event, k: nat) returns (a: Attempt)
    requires Steady(c, s, k) && Enabled(c, s, e)
    requires e == EvRespond(k) || e == EvFail(k) || e == EvWriteState(k) || e == EvLeave(k)
    ensures Moves(c, s, Next(c, s, e), k, a)
  {
    var old' := s.attempts[k];
    match e {
      case EvRespond(_) => a := old'.(phase := Streaming);
      case EvFail(_) => a := old'.(phase := Leaving);
      case EvLeave(_) => a := old'.(phase := Gone);
      case EvWriteState(_) =>
        a := old'.(state := if old'.phase.SettledInLock? then Completed else UsageUnknown, phase := Leaving);
    }
  }

  lemma SettleMoves(c: Config, s: State, u: Usage, k: nat) returns (a: Attempt)
    requires Steady(c, s, k) && s.attempts[k].phase.Streaming?
    requires 0 <= u.cached <= u.input && 0 <= u.output
    ensures Moves(c, s, Settle(c, s, k, u), k, a)
  {
    a := s.attempts[k].(settled := Some(u), phase := SettledInLock);
    assert s.attempts[k].settled.None?;
  }

  lemma GapMoves(c: Config, s: State, k: nat) returns (a: Attempt)
    requires Steady(c, s, k) && s.attempts[k].phase.Streaming?
    ensures Moves(c, s, Gap(s, k), k, a)
  {
    a := s.attempts[k].(phase := GapInLock);
  }

  lemma GrantMoves(c: Config, s: State, k: nat) returns (a: Attempt)
    requires Steady(c, s, k) && s.attempts[k].phase.Sending?
    ensures Moves(c, s, Grant408(c, s, k), k, a)
  {
    var old' := s.attempts[k];
    if s.retriesUsed < c.maxRetries {
      a := old'.(retryable408 := true, phase := Probed(true));
    } else {
      a := old'.(phase := Probed(false));
    }
  }

  lemma HandlerKeeps(c: Config, s: State, e: Event, k: nat)
    requires ValidConfig(c) && Inv(c, s) && Enabled(c, s, e)
    requires e == EvRespond(k) || (e.EvFinish? && e.k == k) || e == EvGrant408(k)
          || e == EvFail(k) || e == EvWriteState(k) || e == EvLeave(k)
    ensures Inv(c, Next(c, s, e))
  {
    InvSteady(c, s, k);
    var t := Next(c, s, e);
    var a: Attempt;
    if e.EvGrant408? {
      a := GrantMoves(c, s, k);
    } else if e.EvFinish? && ValidRawUsage(e.usage) {
      a := SettleMoves(c, s, ToUsage(e.usage.value), k);
    } else if e.EvFinish? {
      a := GapMoves(c, s, k);
    } else {
      a := HandlerMoves(c, s, e, k);
    }
    HandlerExceeded(c, s, e, k);
    UpdateKeeps(c, s, t, k, a);
  }

  lemma SettledAt(s: State, t: State, k: nat)
    requires k < |s.attempts| == |t.attempts| && t.attempts == s.attempts[k := t.attempts[k]]
    ensures t.attempts[k].settled == s.attempts[k].settled ==> (AnySettled(t) <==> AnySettled(s))
    ensures t.attempts[k].settled.Some? ==> AnySettled(t)
  {
    assert forall i | 0 <= i < |s.attempts| && i != k :: t.attempts[i] == s.attempts[i];
  }

  lemma SettledAppend(s: State, t: State, a: Attempt)
    requires t.attempts == s.attempts + [a] && a.settled.None?
    ensures AnySettled(t) <==> AnySettled(s)
  {
    assert forall i | 0 <= i < |s.attempts| :: t.attempts[i] == s.attempts[i];
  }

  /** The settlement block recomputes the flag; no other handler step touches it or what it measures. */
  lemma HandlerExceeded(c: Config, s: State, e: Event, k: nat)
    requires ExceededExactly(c, s) && Enabled(c, s, e)
    requires e == EvRespond(k) || (e.EvFinish? && e.k == k) || e == EvGrant408(k)
          || e == EvFail(k) || e == EvWriteState(k) || e == EvLeave(k)
    ensures ExceededExactly(c, Next(c, s, e))
  {
    var t := Next(c, s, e);
    if e.EvFinish? {
      FinishExceeded(c, s, e);
    } else {
      QuietExceeded(c, s, e, k);
      hide Next, Enabled, OverAny;
      SettledAt(s, t, k);
    }
  }

  lemma FinishExceeded(c: Config, s: State, e: Event)
    requires ExceededExactly(c, s) && Enabled(c, s, e) && e.EvFinish?
    ensures ExceededExactly(c, Next(c, s, e))
  {
    hide AnySettled, OverAny, StopReason;
    var t := Next(c, s, e);
    assert t.attempts == s.attempts[e.k := t.attempts[e.k]];
    SettledAt(s, t, e.k);
  }

  lemma QuietExceeded(c: Config, s: State, e: Event, k: nat)
    requires Enabled(c, s, e)
    requires e == EvRespond(k) || e == EvGrant408(k) || e == EvFail(k) || e == EvWriteState(k) || e == EvLeave(k)
    ensures var t := Next(c, s, e);
      && k < |s.attempts| == |t.attempts| && t.attempts == s.attempts[k := t.attempts[k]]
      && t.attempts[k].settled == s.attempts[k].settled
      && t.budgetExceeded == s.budgetExceeded && t.inCommitted == s.inCommitted && t.outCommitted == s.outCommitted
  {
    hide StopReason, OverAny;
  }

  // ---- admission and closing ------------------------------------------------------------

  lemma AdmitTotals(c: Config, s: State, t: State, a: Attempt)
    requires TotalsInv(c, s) && AttemptOk(a) && a.phase.Sending? && !a.retryable408
    requires a.retryOf408 ==> s.retryBody.Some? && t.retryBody.None?
    requires !a.retryOf408 ==> t.retryBody == s.retryBody
    requires t == s.(attempts := s.attempts + [a], retryBody := t.retryBody, nextUpstreamAt := t.nextUpstreamAt,
                     inReserved := s.inReserved + Reservation(a.body), outReserved := s.outReserved + a.cap,
                     activeCalls := s.activeCalls + 1)
    ensures TotalsInv(c, t)
  {
  }

  lemma AdmitRetries(s: State, t: State, a: Attempt)
    requires RetryInv(s)
    requires a.settled.None? && (a.retryOf408 <==> s.retryBody == Some(a.body))
    requires t.attempts == s.attempts + [a] && t.recovered == s.recovered
    requires t.retryBody == if a.retryOf408 then None else s.retryBody
    ensures RetryInv(t)
  {
    GrantsKept(s, t);
    if s.recovered {
      var i :| 0 <= i < |s.attempts| && s.attempts[i].retryOf408 && s.attempts[i].settled.Some?;
      assert t.attempts[i].retryOf408 && t.attempts[i].settled.Some?;
    }
  }

  lemma AdmitSpending(c: Config, s: State, t: State, a: Attempt)
    requires ValidConfig(c) && SpendInv(c, s) && s.nextUpstreamAt <= a.sendAt
    requires t.attempts == s.attempts + [a] && t.nextUpstreamAt == a.sendAt + c.intervalMs
    requires t.budgetExceeded == s.budgetExceeded && a.settled.None?
    requires t.inCommitted == s.inCommitted && t.outCommitted == s.outCommitted
    requires WithinCaps(c, t)
    ensures SpendInv(c, t)
  {
    SettledAppend(s, t, a);
    hide AnySettled;
  }

  /** An admitted request fits under every cap together with all that is committed and reserved. */
  lemma AdmittedWithin(c: Config, s: State, body: Bytes, cap: int, now: int)
    requires StopReason(c, s, body, cap).None?
    ensures WithinCaps(c, Admit(c, s, body, cap, now))
  {
  }

  lemma AdmitKeeps(c: Config, s: State, body: Bytes, cap: int, now: int)
    requires ValidConfig(c) && Inv(c, s) && 0 < cap
    ensures Inv(c, Admit(c, s, body, cap, now))
  {
    if StopReason(c, s, body, cap).None? {
      var a := NewAttempt(s, body, cap, now);
      var t := Admit(c, s, body, cap, now);
      AdmittedWithin(c, s, body, cap, now);
      AdmitRetries(s, t, a);
      AdmitTotals(c, s, t, a);
      AdmitSpending(c, s, t, a);
    }
  }

  lemma MarkTotals(c: Config, s: State, t: State)
    requires TotalsInv(c, s)
    requires t == s.(attempts := MarkAll(s.attempts), budgetUnknown := t.budgetUnknown, nonRetryable := t.nonRetryable)
    ensures TotalsInv(c, t)
  {
    SumsAfterMark(s.attempts);
    forall a | a in t.attempts ensures AttemptOk(a) {
      var i :| 0 <= i < |t.attempts| && t.attempts[i] == a;
      assert s.attempts[i] in s.attempts;
    }
  }

  lemma MarkRetries(s: State, t: State)
    requires RetryInv(s)
    requires t.attempts == MarkAll(s.attempts) && t.retryBody == s.retryBody && t.recovered == s.recovered
    ensures RetryInv(t)
  {
    GrantsKept(s, t);
    if s.recovered {
      var i :| 0 <= i < |s.attempts| && s.attempts[i].retryOf408 && s.attempts[i].settled.Some?;
      assert t.attempts[i].retryOf408 && t.attempts[i].settled.Some?;
    }
  }

  lemma MarkSpending(c: Config, s: State, t: State)
    requires SpendInv(c, s)
    requires t == s.(attempts := MarkAll(s.attempts), budgetUnknown := t.budgetUnknown, nonRetryable := t.nonRetryable)
    ensures SpendInv(c, t)
  {
    hide OverAny;
    assert forall i | 0 <= i < |s.attempts| :: t.attempts[i].settled == s.attempts[i].settled;
    if AllHonest(t) { HonestBefore(s, t, 0); }
  }

  lemma MarkKeeps(c: Config, s: State)
    requires Inv(c, s)
    ensures Inv(c, MarkUnsettled(s))
  {
    hide TotalsInv, RetryInv, SpendInv, AllHonest;
    if s.activeCalls > 0 {
      var t := MarkUnsettled(s);
      MarkTotals(c, s, t);
      MarkRetries(s, t);
      MarkSpending(c, s, t);
    }
  }

  // ---- whole runs -----------------------------------------------------------------------

  lemma StepKeeps(c: Config, s: State, e: Event)
    requires ValidConfig(c) && Inv(c, s) && Enabled(c, s, e)
    ensures Inv(c, Next(c, s, e))
  {
    match e
    case EvAdmit(body, cap, now) => AdmitKeeps(c, s, body, cap, now);
    case EvClose =>
    case EvMark => MarkKeeps(c, s);
    case _ =>
      HandlerKeeps(c, s, e, e.k);
  }

  /** The invariant holds in every state of every interleaved run. */
  lemma {:induction false} RunKeeps(c: Config, s: State, es: seq<Event>, t: State)
    requires ValidConfig(c) && Inv(c, s) && Reaches(c, s, es, t)
    ensures Inv(c, t)
    decreases |es|
  {
    if es != [] {
      StepKeeps(c, s, es[0]);
      RunKeeps(c, Next(c, s, es[0]), es[1..], t);
    }
  }
}
