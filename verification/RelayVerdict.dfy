/** What the relay's flags and totals say once its handlers are done. */
module RelayVerdict {
  import opened Common
  import opened Sums
  import opened RelayProtocol
  import opened RelayInvariant

  /** The single unresolved attempt u was a granted 408 and attempt r completed the same body. */
  ghost predicate RecoveredBy(s: State, u: nat, r: nat) {
    && OnlyUnresolved(s, u) && s.attempts[u].retryable408
    && CompletedRetry(s, r) && s.attempts[r].body == s.attempts[u].body
    && s.inReserved == Reservation(s.attempts[u].body) && s.outReserved == s.attempts[u].cap
  }

  lemma ReachableInv(c: Config, es: seq<Event>, s: State)
    requires ValidConfig(c) && Reaches(c, Init(), es, s)
    ensures Inv(c, s)
  {
    RunKeeps(c, Init(), es, s);
  }

  /** When no call is active every handler is gone and every attempt's record is final. */
  lemma QuiescentRecords(c: Config, s: State)
    requires Inv(c, s) && s.activeCalls <= 0
    ensures s.activeCalls == 0
    ensures forall i | 0 <= i < |s.attempts| ::
      && s.attempts[i].phase.Gone?
      && (s.attempts[i].state.Completed? <==> s.attempts[i].settled.Some?)
      && (s.attempts[i].retryable408 ==> Unresolved(s.attempts[i]))
  {
    SumNonNegative(s.attempts, InFlight);
    SumZero(s.attempts, InFlight);
    forall i | 0 <= i < |s.attempts|
      ensures && s.attempts[i].phase.Gone?
        && (s.attempts[i].state.Completed? <==> s.attempts[i].settled.Some?)
        && (s.attempts[i].retryable408 ==> Unresolved(s.attempts[i]))
    {
      assert s.attempts[i] in s.attempts && InFlight(s.attempts[i]) == 0;
    }
  }

  /** Nothing is reserved exactly when every attempt has completed. */
  lemma NothingReserved(c: Config, s: State)
    requires Inv(c, s) && s.activeCalls == 0
    ensures s.inReserved == 0 && s.outReserved == 0 <==> NoneUnresolved(s)
    ensures s.inReserved == 0 <==> NoneUnresolved(s)
  {
    QuiescentRecords(c, s);
    SumZero(s.attempts, InHold);
    SumZero(s.attempts, OutHold);
  }

  /** With one unresolved attempt, what is still reserved is exactly its reservation. */
  lemma OnlyHold(c: Config, s: State, u: nat)
    requires Inv(c, s) && s.activeCalls == 0 && OnlyUnresolved(s, u)
    ensures s.inReserved == Reservation(s.attempts[u].body) && s.outReserved == s.attempts[u].cap
  {
    QuiescentRecords(c, s);
    SumSingle(s.attempts, u, InHold);
    SumSingle(s.attempts, u, OutHold);
  }

  /** A completed retry's body is that of some granted 408, which itself never completes. */
  lemma RetryRepeatsUnresolved(c: Config, s: State, r: nat) returns (j: nat)
    requires Inv(c, s) && s.activeCalls == 0 && CompletedRetry(s, r)
    ensures j < |s.attempts| && s.attempts[j].retryable408 && s.attempts[j].body == s.attempts[r].body
    ensures Unresolved(s.attempts[j])
  {
    QuiescentRecords(c, s);
    assert GrantFor(s, s.attempts[r].body);
    j :| 0 <= j < |s.attempts| && s.attempts[j].retryable408 && s.attempts[j].body == s.attempts[r].body;
  }

  /**
   The verdict, for every interleaving: usage counts as settled exactly when no call is active
   and either nothing is reserved, or one attempt alone is unresolved, it was a pre-response 408,
   some completed retry carried the very same body, and the reserved totals are that attempt's.
   */
  lemma SettledExactly(c: Config, es: seq<Event>, s: State)
    requires ValidConfig(c) && Reaches(c, Init(), es, s)
    ensures UsageSettled(s) <==>
      s.activeCalls == 0
      && ((s.inReserved == 0 && s.outReserved == 0) || exists u: nat, r: nat :: RecoveredBy(s, u, r))
  {
    ReachableInv(c, es, s);
    if s.activeCalls <= 0 {
      QuiescentRecords(c, s);
      NothingReserved(c, s);
      if UsageSettled(s) && !NoneUnresolved(s) {
        var r :| CompletedRetry(s, r);
        var u: nat :| OnlyUnresolved(s, u) && s.attempts[u].retryable408;
        var j := RetryRepeatsUnresolved(c, s, r);
        OnlyHold(c, s, u);
        assert RecoveredBy(s, u, r);
      }
      if u: nat, r: nat :| RecoveredBy(s, u, r) {
        assert s.attempts[r].retryOf408 && s.attempts[r].settled.Some?;
      }
    }
  }

  // ---- the verdict against its own description ------------------------------------------

  /** An attempt that was granted a retry which some completed attempt then used. */
  ghost predicate UsedItsRecovery(s: State, i: nat) {
    && i < |s.attempts| && s.attempts[i].retryable408
    && exists r :: CompletedRetry(s, r) && s.attempts[r].body == s.attempts[i].body
  }

  /** "Every admitted provider attempt settled or used its exact 408 recovery." */
  ghost predicate EveryAttemptAccounted(s: State) {
    forall i: nat | i < |s.attempts| :: s.attempts[i].state.Completed? || UsedItsRecovery(s, i)
  }

  ghost predicate AtMostOneUnresolved(s: State) {
    forall i, j | 0 <= i < |s.attempts| && 0 <= j < |s.attempts| ::
      Unresolved(s.attempts[i]) && Unresolved(s.attempts[j]) ==> i == j
  }

  /** The verdict is its description together with a limit the description does not mention. */
  lemma VerdictVersusDescription(c: Config, es: seq<Event>, s: State)
    requires ValidConfig(c) && Reaches(c, Init(), es, s) && s.activeCalls == 0
    ensures UsageSettled(s) <==> EveryAttemptAccounted(s) && AtMostOneUnresolved(s)
  {
    ReachableInv(c, es, s);
    SettledExactly(c, es, s);
    NothingReserved(c, s);
    if UsageSettled(s) && !NoneUnresolved(s) {
      var u: nat, r: nat :| RecoveredBy(s, u, r);
      assert UsedItsRecovery(s, u);
    }
    if EveryAttemptAccounted(s) && AtMostOneUnresolved(s) && !NoneUnresolved(s) {
      var u: nat :| u < |s.attempts| && Unresolved(s.attempts[u]);
      var r :| CompletedRetry(s, r) && s.attempts[r].body == s.attempts[u].body;
      OnlyHold(c, s, u);
      assert RecoveredBy(s, u, r);
    }
  }

  lemma {:induction false} ReachesSnoc(c: Config, s: State, es: seq<Event>, t: State, e: Event)
    requires Reaches(c, s, es, t) && Enabled(c, t, e)
    ensures Reaches(c, s, es + [e], Next(c, t, e))
    decreases |es|
  {
    if es == [] {
      assert Reaches(c, Next(c, s, e), [], Next(c, t, e));
      assert (es + [e])[1..] == [];
    } else {
      ReachesSnoc(c, Next(c, s, es[0]), es[1..], t, e);
      assert (es + [e])[1..] == es[1..] + [e];
    }
  }

  lemma {:induction false} ReachesTrans(c: Config, s: State, es: seq<Event>, t: State, fs: seq<Event>, u: State)
    requires Reaches(c, s, es, t) && Reaches(c, t, fs, u)
    ensures Reaches(c, s, es + fs, u)
    decreases |es|
  {
    if es == [] {
      assert es + fs == fs;
    } else {
      ReachesTrans(c, Next(c, s, es[0]), es[1..], t, fs, u);
      assert (es + fs)[1..] == es[1..] + fs;
    }
  }

  /** A quiescent state that would admit any request under a relay without spending caps. */
  ghost predicate ReadyFor(c: Config, s: State) {
    && c.maxInputTotal.None? && c.maxOutputTotal.None? && c.maxPeakMissUsd.None?
    && s.activeCalls == 0 && !s.closed && !s.nonRetryable && !s.budgetExceeded
    && s.retryBody.None? && (s.budgetUnknown ==> s.recovered)
    && |s.attempts| + 2 <= c.maxRequests && s.retriesUsed < c.maxRetries
  }

  /** Admission, a pre-response 408 with its grant, and the handler's exit. */
  lemma RefusedOnce(c: Config, s: State, body: Bytes) returns (es: seq<Event>, t: State, a: Attempt)
    requires ReadyFor(c, s) && |body| <= c.maxBodyBytes && 0 < c.maxOutputTokens
    ensures Reaches(c, s, es, t)
    ensures t.attempts == s.attempts + [a]
    ensures a.body == body && a.retryable408 && Unresolved(a)
    ensures t == s.(attempts := t.attempts, inReserved := t.inReserved, outReserved := t.outReserved,
                    nextUpstreamAt := t.nextUpstreamAt, budgetUnknown := true,
                    retriesUsed := s.retriesUsed + 1, retryBody := Some(body))
  {
    var k := |s.attempts|;
    var s1 := Admit(c, s, body, 1, 0);
    assert StopReason(c, s, body, 1).None?;
    var s2 := Grant408(c, s1, k);
    var s3 := Fail(s2, k);
    t := Leave(s3, k);
    a := t.attempts[k];
    ReachesSnoc(c, s, [], s, EvAdmit(body, 1, 0));
    ReachesSnoc(c, s, [EvAdmit(body, 1, 0)], s1, EvGrant408(k));
    ReachesSnoc(c, s, [EvAdmit(body, 1, 0)] + [EvGrant408(k)], s2, EvFail(k));
    es := [EvAdmit(body, 1, 0)] + [EvGrant408(k)] + [EvFail(k)];
    ReachesSnoc(c, s, es, s3, EvLeave(k));
    es := es + [EvLeave(k)];
  }

  /** The exact retry is admitted, answered and settled. */
  lemma RetriedOnce(c: Config, s: State, body: Bytes) returns (es: seq<Event>, t: State, a: Attempt)
    requires c.maxInputTotal.None? && c.maxOutputTotal.None? && c.maxPeakMissUsd.None?
    requires s.activeCalls == 0 && !s.closed && !s.nonRetryable && !s.budgetExceeded
    requires s.retryBody == Some(body) && |s.attempts| + 1 <= c.maxRequests
    requires |body| <= c.maxBodyBytes && 0 < c.maxOutputTokens
    ensures Reaches(c, s, es, t)
    ensures t.attempts == s.attempts + [a]
    ensures a.body == body && a.retryOf408 && a.state.Completed?
    ensures t == s.(attempts := t.attempts, inReserved := t.inReserved, outReserved := t.outReserved,
                    nextUpstreamAt := t.nextUpstreamAt, recovered := true, retryBody := None)
  {
    var k := |s.attempts|;
    var zero := Some(RawUsage(Some(0), Some(0), Some(0)));
    var s1 := Admit(c, s, body, 1, 0);
    assert StopReason(c, s, body, 1).None?;
    var s2 := SetPhase(s1, k, Streaming);
    var s3 := FinishResponse(c, s2, k, zero);
    var s4 := WriteState(s3, k);
    t := Leave(s4, k);
    a := t.attempts[k];
    ReachesSnoc(c, s, [], s, EvAdmit(body, 1, 0));
    ReachesSnoc(c, s, [EvAdmit(body, 1, 0)], s1, EvRespond(k));
    ReachesSnoc(c, s, [EvAdmit(body, 1, 0)] + [EvRespond(k)], s2, EvFinish(k, zero));
    es := [EvAdmit(body, 1, 0)] + [EvRespond(k)] + [EvFinish(k, zero)];
    ReachesSnoc(c, s, es, s3, EvWriteState(k));
    es := es + [EvWriteState(k)];
    ReachesSnoc(c, s, es, s4, EvLeave(k));
    es := es + [EvLeave(k)];
  }

  lemma RecoveryRun(c: Config, s: State, body: Bytes) returns (es: seq<Event>, t: State)
    requires ReadyFor(c, s) && |body| <= c.maxBodyBytes && 0 < c.maxOutputTokens
    ensures Reaches(c, s, es, t)
    ensures |t.attempts| == |s.attempts| + 2 && t.attempts[..|s.attempts|] == s.attempts
    ensures UsedItsRecovery(t, |s.attempts|) && Unresolved(t.attempts[|s.attempts|])
    ensures t.attempts[|s.attempts| + 1].state.Completed?
    ensures t == s.(attempts := t.attempts, inReserved := t.inReserved, outReserved := t.outReserved,
                    nextUpstreamAt := t.nextUpstreamAt, budgetUnknown := true,
                    retriesUsed := s.retriesUsed + 1, recovered := true)
  {
    var es1, s1, u := RefusedOnce(c, s, body);
    var es2, s2, r := RetriedOnce(c, s1, body);
    ReachesTrans(c, s, es1, s1, es2, s2);
    es, t := es1 + es2, s2;
    assert CompletedRetry(t, |s.attempts| + 1);
  }

  /** The description alone is not what the code decides: two recovered 408s are refused. */
  lemma TwoRecoveriesAreRefused() returns (c: Config, es: seq<Event>, s: State)
    ensures ValidConfig(c) && Reaches(c, Init(), es, s)
    ensures s.activeCalls == 0 && EveryAttemptAccounted(s) && !UsageSettled(s)
  {
    c := Config(40, 262144, 8192, None, None, None, 300, 300, 1200, 0, 2);
    var es1, s1 := RecoveryRun(c, Init(), [1]);
    var es2, s2 := RecoveryRun(c, s1, [2]);
    ReachesTrans(c, Init(), es1, s1, es2, s2);
    es, s := es1 + es2, s2;
    VerdictVersusDescription(c, es, s);
    hide Reaches, Admit, UsageSettled, UsedItsRecovery, CompletedRetry;
    assert Unresolved(s.attempts[0]) && Unresolved(s.attempts[2]);
  }
}
