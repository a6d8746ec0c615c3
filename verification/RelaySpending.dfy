/** Caps, freezes, receipts and the final state of a relay, over every interleaved run. */
module RelaySpending {
  import opened Common
  import opened Sums
  import opened RelayProtocol
  import opened RelayInvariant
  import opened RelayVerdict

  /** Reserved totals never go negative, and committed totals hold the cached part inside the input. */
  lemma TotalsNonNegative(c: Config, s: State)
    requires Inv(c, s)
    ensures 0 <= s.inReserved && 0 <= s.outReserved
    ensures 0 <= s.inCommitted && 0 <= s.outCommitted
  {
    SumNonNegative(s.attempts, InHold);
    SumNonNegative(s.attempts, OutHold);
    SumNonNegative(s.attempts, InUsed);
    SumNonNegative(s.attempts, OutUsed);
  }

  /** The totals of every reachable state are the sums of what its attempts hold and used. */
  lemma Conservation(c: Config, es: seq<Event>, s: State)
    requires ValidConfig(c) && Reaches(c, Init(), es, s)
    ensures s.inReserved == Sum(s.attempts, InHold) && s.outReserved == Sum(s.attempts, OutHold)
    ensures s.inCommitted == Sum(s.attempts, InUsed) && s.outCommitted == Sum(s.attempts, OutUsed)
    ensures s.cachedCommitted == Sum(s.attempts, CachedUsed)
    ensures s.activeCalls == Sum(s.attempts, InFlight)
  {
    ReachableInv(c, es, s);
  }

  /** Taken plus pending retries <= granted 408s == retries used <= the configured maximum. */
  lemma RetriesWithinGrants(c: Config, es: seq<Event>, s: State)
    requires ValidConfig(c) && Reaches(c, Init(), es, s)
    ensures Sum(s.attempts, Retry) + Pending(s) <= s.retriesUsed == Sum(s.attempts, Granted) <= c.maxRetries
    ensures forall a | a in s.attempts && a.retryable408 :: !a.state.Completed? && a.settled.None?
  {
    ReachableInv(c, es, s);
  }

  /** While no settled attempt used more than it reserved, committed plus reserved stays capped. */
  lemma HonestRunsStayCapped(c: Config, es: seq<Event>, s: State)
    requires ValidConfig(c) && Reaches(c, Init(), es, s)
    requires s.attempts != [] && AllHonest(s)
    ensures !OverInput(c, s.inCommitted + s.inReserved)
    ensures !OverOutput(c, s.outCommitted + s.outReserved)
    ensures !OverPrice(c, s.inCommitted + s.inReserved, s.outCommitted + s.outReserved)
  {
    ReachableInv(c, es, s);
  }

  /** Whatever the provider reported: once committed usage is past a cap, every request is refused. */
  lemma NothingAdmittedOverCap(c: Config, es: seq<Event>, s: State, body: Bytes, cap: int)
    requires ValidConfig(c) && Reaches(c, Init(), es, s) && 0 < cap
    requires OverAny(c, s.inCommitted, s.outCommitted)
    ensures StopReason(c, s, body, cap).Some?
  {
    hide Reaches, Inv, PeakCost;
    ReachableInv(c, es, s);
    TotalsNonNegative(c, s);
    PeakCostMonotone(c, s.inCommitted, s.outCommitted,
                     s.inCommitted + s.inReserved + Reservation(body), s.outCommitted + s.outReserved + cap);
  }

  /** Any later two attempts were scheduled at least one interval apart, whatever the clock did. */
  lemma SendTimesSpaced(c: Config, es: seq<Event>, s: State, i: nat, j: nat)
    requires ValidConfig(c) && Reaches(c, Init(), es, s) && i < j < |s.attempts|
    ensures s.attempts[i].sendAt + c.intervalMs <= s.attempts[j].sendAt
  {
    ReachableInv(c, es, s);
  }

  // ---- permanent stops ------------------------------------------------------------------

  ghost predicate Stopped(s: State) { s.closed || s.nonRetryable || s.budgetExceeded }

  lemma StepStaysStopped(c: Config, s: State, e: Event)
    requires ValidConfig(c) && ExceededExactly(c, s) && Enabled(c, s, e) && Stopped(s)
    ensures Stopped(Next(c, s, e)) && |Next(c, s, e).attempts| == |s.attempts|
  {
    if e.EvFinish? && ValidRawUsage(e.usage) {
      var u := ToUsage(e.usage.value);
      PeakCostMonotone(c, s.inCommitted, s.outCommitted, s.inCommitted + u.input, s.outCommitted + u.output);
    }
  }

  /** Closing, a non-retryable usage gap and an exceeded budget each end admission for good. */
  lemma {:induction false} StoppedForever(c: Config, s: State, es: seq<Event>, t: State)
    requires ValidConfig(c) && Inv(c, s) && Stopped(s) && Reaches(c, s, es, t)
    ensures Stopped(t) && |t.attempts| == |s.attempts|
    decreases |es|
  {
    if es != [] {
      StepStaysStopped(c, s, es[0]);
      StepKeeps(c, s, es[0]);
      StoppedForever(c, Next(c, s, es[0]), es[1..], t);
    }
  }

  lemma OnlyRefusals(c: Config, s: State, e: Event)
    requires Inv(c, s) && s.closed && s.activeCalls <= 0 && Enabled(c, s, e)
    ensures Next(c, s, e) == s.(rejections := Next(c, s, e).rejections)
  {
    QuiescentRecords(c, s);
  }

  /** After close, once the last call has left, only refusal counts can change: the verdict and
      the saved totals cannot. */
  lemma {:induction false} FinalAfterClose(c: Config, s: State, es: seq<Event>, t: State)
    requires ValidConfig(c) && Inv(c, s) && s.closed && s.activeCalls <= 0 && Reaches(c, s, es, t)
    ensures t == s.(rejections := t.rejections)
    ensures UsageSettled(t) <==> UsageSettled(s)
    decreases |es|
  {
    if es != [] {
      var n := Next(c, s, es[0]);
      OnlyRefusals(c, s, es[0]);
      StepKeeps(c, s, es[0]);
      FinalAfterClose(c, n, es[1..], t);
      RefusalsKeepVerdict(s, n);
    }
  }

  lemma RefusalsKeepVerdict(s: State, t: State)
    requires t == s.(rejections := t.rejections)
    ensures UsageSettled(t) <==> UsageSettled(s)
  {
    assert NoneUnresolved(t) <==> NoneUnresolved(s);
    assert forall i :: CompletedRetry(t, i) <==> CompletedRetry(s, i);
    assert forall u: nat :: OnlyUnresolved(t, u) <==> OnlyUnresolved(s, u);
  }

  // ---- the receipt ----------------------------------------------------------------------

  /** The cost fields written into a completed attempt's record. */
  function AttemptCost(c: Config, u: Usage): int {
    (u.input - u.cached) * c.inPrice + u.cached * c.cachedPrice + u.output * c.outPrice
  }
  function AttemptPeakCost(c: Config, u: Usage): int { u.input * c.inPrice + u.output * c.outPrice }

  function TotalCost(c: Config, input: int, cached: int, output: int): int {
    (input - cached) * c.inPrice + cached * c.cachedPrice + c.outPrice * output
  }

  /** The receipt's totals, computed from the committed counters. */
  function ReceiptCost(c: Config, s: State): int {
    TotalCost(c, s.inCommitted, s.cachedCommitted, s.outCommitted)
  }
  function ReceiptPeakCost(c: Config, s: State): int { PeakCost(c, s.inCommitted, s.outCommitted) }

  ghost function RecordedCosts(c: Config, s: seq<Attempt>): (int, int) {
    if s == [] then (0, 0)
    else
      var (cost, peak) := RecordedCosts(c, s[..|s| - 1]);
      var a := s[|s| - 1];
      if a.state.Completed? && a.settled.Some?
      then (cost + AttemptCost(c, a.settled.value), peak + AttemptPeakCost(c, a.settled.value))
      else (cost, peak)
  }

  lemma {:induction false} CostsAddUp(c: Config, s: seq<Attempt>)
    requires forall i | 0 <= i < |s| :: s[i].state.Completed? <==> s[i].settled.Some?
    ensures RecordedCosts(c, s) == (TotalCost(c, Sum(s, InUsed), Sum(s, CachedUsed), Sum(s, OutUsed)),
                                    PeakCost(c, Sum(s, InUsed), Sum(s, OutUsed)))
  {
    CostOfNothing(c);
    hide TotalCost, PeakCost, AttemptCost, AttemptPeakCost;
    if s != [] {
      var n := |s| - 1;
      CostsAddUp(c, s[..n]);
      if s[n].settled.Some? {
        CostStep(c, Sum(s[..n], InUsed), Sum(s[..n], CachedUsed), Sum(s[..n], OutUsed), s[n].settled.value);
      }
    }
  }

  lemma CostOfNothing(c: Config)
    ensures TotalCost(c, 0, 0, 0) == 0 && PeakCost(c, 0, 0) == 0
  {
  }

  lemma CostStep(c: Config, input: int, cached: int, output: int, u: Usage)
    ensures TotalCost(c, input + u.input, cached + u.cached, output + u.output)
         == TotalCost(c, input, cached, output) + AttemptCost(c, u)
    ensures PeakCost(c, input + u.input, output + u.output) == PeakCost(c, input, output) + AttemptPeakCost(c, u)
  {
  }

  /** A receipt saved once no call is active totals exactly the costs recorded per attempt. */
  lemma ReceiptTotalsItsAttempts(c: Config, es: seq<Event>, s: State)
    requires ValidConfig(c) && Reaches(c, Init(), es, s) && s.activeCalls == 0
    ensures RecordedCosts(c, s.attempts) == (ReceiptCost(c, s), ReceiptPeakCost(c, s))
  {
    ReachableInv(c, es, s);
    QuiescentRecords(c, s);
    CostsAddUp(c, s.attempts);
  }
}
