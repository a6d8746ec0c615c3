/**
 The relay object itself. Each method is one lock block of the request handler (or one write the
 handler makes outside the lock) and updates the fields in place; its postcondition says that the
 new field values are the protocol step of the old ones.
 */
module CredentialRelay {
  import opened Common
  import opened RelayProtocol

  class CredentialRelay {
    const config: Config
    var inReserved: int
    var outReserved: int
    var inCommitted: int
    var cachedCommitted: int
    var outCommitted: int
    var budgetUnknown: bool
    var budgetExceeded: bool
    var retriesUsed: int
    var retryBody: Option<Bytes>
    var recovered: bool
    var nonRetryable: bool
    var rejections: map<Stop, nat>
    var attempts: seq<Attempt>
    var activeCalls: int
    var closed: bool
    var nextUpstreamAt: int

    ghost function View(): State
      reads this
    {
      State(inReserved, outReserved, inCommitted, cachedCommitted, outCommitted,
                  budgetUnknown, budgetExceeded, retriesUsed, retryBody, recovered, nonRetryable,
                  rejections, attempts, activeCalls, closed, nextUpstreamAt)
    }

    constructor (config: Config)
      requires ValidConfig(config)
      ensures this.config == config && View() == Init()
    {
      this.config := config;
      inReserved, outReserved := 0, 0;
      inCommitted, cachedCommitted, outCommitted := 0, 0, 0;
      budgetUnknown, budgetExceeded := false, false;
      retriesUsed, retryBody, recovered, nonRetryable := 0, None, false, false;
      rejections, attempts, activeCalls, closed, nextUpstreamAt := map[], [], 0, false, 0;
    }

    /** The admission block; returns the stop reason, or None when the attempt was recorded. */
    method AdmitLocked(body: Bytes, cap: int, now: int) returns (stop: Option<Stop>)
      modifies this
      ensures stop == StopReason(config, old(View()), body, cap)
      ensures View() == Admit(config, old(View()), body, cap, now)
    {
      stop := CheckAdmission(body, cap);
      if stop.Some? {
        rejections := rejections[stop.value := if stop.value in rejections then rejections[stop.value] + 1 else 1];
      } else {
        RecordAttempt(body, cap, now);
      }
    }

    method CheckAdmission(body: Bytes, cap: int) returns (stop: Option<Stop>)
      ensures stop == StopReason(config, View(), body, cap)
    {
      var input := inCommitted + inReserved + Reservation(body);
      var output := outCommitted + outReserved + cap;
      var inputLimitHit := OverInput(config, input);
      var outputLimitHit := OverOutput(config, output);
      var costLimitHit := OverPrice(config, input, output);
      var pendingRetry := retryBody.Some?;
      var retryingSame := pendingRetry && retryBody.value == body;
      var unknownBlocked :=
        || nonRetryable
        || (pendingRetry && !retryingSame)
        || (budgetUnknown && !recovered && !retryingSame);
      stop := if closed then Some(Closed)
              else if unknownBlocked then Some(StopUsageUnknown)
              else if budgetExceeded then Some(BudgetExceeded)
              else if |attempts| >= config.maxRequests then Some(RequestLimit)
              else if inputLimitHit then Some(InputLimit)
              else if outputLimitHit then Some(OutputLimit)
              else if costLimitHit then Some(PriceLimit)
              else None;
    }

    method RecordAttempt(body: Bytes, cap: int, now: int)
      modifies this
      ensures View() == Admitted(config, old(View()), body, cap, now)
    {
      hide Reservation;
      var retryingSame, sendAt := ClaimSend(body, now);
      attempts := attempts + [Attempt(body, cap, sendAt, retryingSame, Unknown, false, false, None, Sending)];
      inReserved := inReserved + Reservation(body);
      outReserved := outReserved + cap;
      activeCalls := activeCalls + 1;
    }

    /** Consume a matching retry grant and take the next send slot. */
    method ClaimSend(body: Bytes, now: int) returns (retryingSame: bool, sendAt: int)
      modifies this`retryBody, this`nextUpstreamAt
      ensures retryingSame == RetriesSame(old(View()), body) && sendAt == Max(now, old(nextUpstreamAt))
      ensures retryBody == if retryingSame then None else old(retryBody)
      ensures nextUpstreamAt == sendAt + config.intervalMs
    {
      retryingSame := retryBody == Some(body);
      if retryingSame {
        retryBody := None;
      }
      sendAt := if now >= nextUpstreamAt then now else nextUpstreamAt;
      nextUpstreamAt := sendAt + config.intervalMs;
    }

    /** A response that ended: settle its usage, or freeze when the usage cannot be trusted. */
    method FinishLocked(k: nat, usage: Option<RawUsage>)
      requires k < |attempts|
      modifies this
      ensures View() == FinishResponse(config, old(View()), k, usage)
    {
      if ValidRawUsage(usage) {
        SettleLocked(k, ToUsage(usage.value));
      } else {
        budgetUnknown := true;
        nonRetryable := true;
        attempts := attempts[k := attempts[k].(phase := GapInLock)];
      }
    }

    method SettleLocked(k: nat, u: Usage)
      requires k < |attempts|
      modifies this
      ensures View() == Settle(config, old(View()), k, u)
    {
      var a := attempts[k];
      MoveTokens(a, u);
      if a.retryOf408 {
        recovered := true;
      }
      attempts := attempts[k := a.(settled := Some(u), phase := SettledInLock)];
    }

    /** Releases the reservation, commits the usage and re-evaluates the spending caps. */
    method MoveTokens(a: Attempt, u: Usage)
      modifies `inReserved, `outReserved, `inCommitted, `cachedCommitted, `outCommitted, `budgetExceeded
      ensures inReserved == old(inReserved) - Reservation(a.body) && outReserved == old(outReserved) - a.cap
      ensures inCommitted == old(inCommitted) + u.input && outCommitted == old(outCommitted) + u.output
      ensures cachedCommitted == old(cachedCommitted) + u.cached
      ensures budgetExceeded == OverAny(config, old(inCommitted) + u.input, old(outCommitted) + u.output)
    {
      inReserved := inReserved - Reservation(a.body);
      outReserved := outReserved - a.cap;
      inCommitted := inCommitted + u.input;
      cachedCommitted := cachedCommitted + u.cached;
      outCommitted := outCommitted + u.output;
      budgetExceeded := OverAny(config, inCommitted, outCommitted);
    }

    /** The retry-grant block of a pre-response HTTP 408. */
    method Grant408Locked(k: nat) returns (retryable: bool)
      requires k < |attempts|
      modifies this
      ensures View() == Grant408(config, old(View()), k)
      ensures retryable <==> old(retriesUsed) < config.maxRetries
    {
      var a := attempts[k];
      retryable := false;
      if retriesUsed < config.maxRetries {
        retriesUsed := retriesUsed + 1;
        retryBody := Some(a.body);
        a := a.(retryable408 := true);
        retryable := true;
      }
      attempts := attempts[k := a.(phase := Probed(retryable))];
    }

    /** The block that every failed attempt ends with. */
    method FailLocked(k: nat, retryable: bool)
      requires k < |attempts| && retryable == (attempts[k].phase == Probed(true))
      modifies this
      ensures View() == Fail(old(View()), k)
    {
      budgetUnknown := true;
      if !retryable {
        nonRetryable := true;
      }
      attempts := attempts[k := attempts[k].(phase := Leaving)];
    }

    /** The record's state is written after the lock was released. */
    method WriteRecordState(k: nat)
      requires k < |attempts|
      modifies this
      ensures View() == WriteState(old(View()), k)
    {
      var a := attempts[k];
      attempts := attempts[k := a.(state := if a.phase.SettledInLock? then Completed else UsageUnknown,
                                   phase := Leaving)];
    }

    /** The finally clause. */
    method LeaveLocked(k: nat)
      requires k < |attempts|
      modifies this
      ensures View() == Leave(old(View()), k)
    {
      activeCalls := activeCalls - 1;
      attempts := attempts[k := attempts[k].(phase := Gone)];
    }

    method CloseLocked()
      modifies this
      ensures View() == old(View()).(closed := true)
    {
      closed := true;
    }

    /** Freezes every admitted request that is still in flight when the relay closes. */
    method MarkUnsettledLocked()
      modifies this
      ensures View() == MarkUnsettled(old(View()))
    {
      if activeCalls <= 0 {
        return;
      }
      budgetUnknown := true;
      nonRetryable := true;
      MarkRecords();
    }

    method MarkRecords()
      modifies `attempts
      ensures attempts == MarkAll(old(attempts))
    {
      var i := 0;
      while i < |attempts|
        invariant 0 <= i <= |attempts| == |old(attempts)|
        invariant forall j | 0 <= j < i :: attempts[j] == MarkAttempt(old(attempts)[j])
        invariant forall j | i <= j < |attempts| :: attempts[j] == old(attempts)[j]
      {
        if attempts[i].state.Unknown? {
          attempts := attempts[i := attempts[i].(state := UsageUnknown, activeAtClose := true)];
        }
        i := i + 1;
      }
    }

    /** relay_usage_settled, over the relay's fields. */
    method UsageSettledNow() returns (settled: bool)
      ensures settled <==> UsageSettled(View())
    {
      if activeCalls > 0 {
        return false;
      }
      var unresolved: seq<nat> := [];
      var retriesSeen := false;
      for i := 0 to |attempts|
        invariant forall j | 0 <= j < |unresolved| :: unresolved[j] < i && Unresolved(attempts[unresolved[j]])
        invariant forall j, l | 0 <= j < l < |unresolved| :: unresolved[j] < unresolved[l]
        invariant forall j: nat | j < i && Unresolved(attempts[j]) :: j in unresolved
        invariant retriesSeen <==> exists j :: 0 <= j < i && CompletedRetry(View(), j)
      {
        if !attempts[i].state.Completed? {
          unresolved := unresolved + [i];
        } else if attempts[i].retryOf408 {
          assert CompletedRetry(View(), i);
          retriesSeen := true;
        }
      }
      if |unresolved| == 0 {
        assert NoneUnresolved(View());
        return inReserved == 0 && outReserved == 0;
      }
      assert Unresolved(attempts[unresolved[0]]);
      settled := |unresolved| == 1 && attempts[unresolved[0]].retryable408 && recovered && retriesSeen;
      if |unresolved| == 1 {
        assert OnlyUnresolved(View(), unresolved[0]);
      } else {
        assert Unresolved(attempts[unresolved[1]]);
      }
    }
  }
}
