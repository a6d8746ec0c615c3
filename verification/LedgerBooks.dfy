/** What every ledger operation keeps, over any run of reservations, settlements and reloads. */
module LedgerBooks {
  import opened Common
  import opened RealSums
  import opened LedgerModel

  const RESERVED: Attempt -> real := (a: Attempt) => if a.status.Reserved? then a.reservedUsd else 0.0
  const COMMITTED: Attempt -> real := (a: Attempt) => if a.status.Committed? then a.settledUsd else 0.0
  const UNKNOWN: Attempt -> real := (a: Attempt) => if a.status.Unknown? then a.settledUsd else 0.0

  predicate RowOk(a: Attempt) {
    && a.estimateUsd >= 0.0
    && a.reservedUsd == (if a.status.RejectedCap? then 0.0 else a.estimateUsd)
    && (a.status.Reserved? || a.status.RejectedCap? || a.status.RateLimited? ==> a.settledUsd == 0.0)
    && (a.status.Unknown? ==> a.settledUsd == a.reservedUsd)
    && a.settledUsd >= 0.0
    && (!a.status.Committed? ==> a.input == 0 && a.output == 0)
  }

  /** Every total is the sum of its attempts, and ids count the attempts from 1. */
  ghost predicate Inv(l: Ledger) {
    && ValidPricing(l.pricing)
    && l.reserved == Total(l.attempts, RESERVED)
    && l.committed == Total(l.attempts, COMMITTED)
    && l.unknown == Total(l.attempts, UNKNOWN)
    && (forall i | 0 <= i < |l.attempts| :: RowOk(l.attempts[i]) && l.attempts[i].id == i + 1)
    && l.nextId == |l.attempts| + 1
  }

  lemma FreshKeeps(cap: real, pricing: Pricing, maxOutput: nat)
    requires ValidPricing(pricing)
    ensures Inv(Fresh(cap, pricing, maxOutput))
  {
  }

  // ---- lookups --------------------------------------------------------------------------

  lemma {:induction false} FindFrom(attempts: seq<Attempt>, first: int, id: int)
    requires forall i | 0 <= i < |attempts| :: attempts[i].id == first + i
    ensures Find(attempts, id) == if first <= id < first + |attempts| then Some(id - first) else None
  {
    if attempts != [] && attempts[0].id != id {
      FindFrom(attempts[1..], first + 1, id);
    }
  }

  lemma {:induction false} MaxIdIsCount(attempts: seq<Attempt>)
    requires forall i | 0 <= i < |attempts| :: attempts[i].id == i + 1
    ensures MaxId(attempts) == |attempts|
  {
    if attempts != [] { MaxIdIsCount(attempts[..|attempts| - 1]); }
  }

  // ---- steps ----------------------------------------------------------------------------

  lemma RefusalKeeps(l: Ledger, body: nat, a: Attempt)
    requires Inv(l) && RowOk(a) && a.status.RejectedCap? && a.id == l.nextId
    ensures Inv(l.(capStopped := true, nextId := l.nextId + 1, attempts := l.attempts + [a]))
  {
    TotalAppend(l.attempts, a, RESERVED);
    TotalAppend(l.attempts, a, COMMITTED);
    TotalAppend(l.attempts, a, UNKNOWN);
  }

  lemma ReserveKeeps(l: Ledger, request: int, body: nat, segment: string)
    requires Inv(l)
    ensures Inv(Reserve(l, request, body, segment))
  {
    EstimateNonNegative(l.pricing, body, l.maxOutput);
    hide Estimate;
    var a := Reserve(l, request, body, segment).attempts[|l.attempts|];
    TotalAppend(l.attempts, a, RESERVED);
    TotalAppend(l.attempts, a, COMMITTED);
    TotalAppend(l.attempts, a, UNKNOWN);
  }

  lemma GuardedKeeps(l: Ledger, c: Limits, now: int, spent: bool, request: int, body: nat, segment: string)
    requires Inv(l)
    ensures Inv(GuardedReserve(l, c, now, spent, request, body, segment))
  {
    match GuardReason(l, c, now, spent, body)
    case None => ReserveKeeps(l, request, body, segment);
    case Some(reason) =>
      EstimateNonNegative(l.pricing, body, l.maxOutput);
      hide Estimate, GuardReason;
      var r := GuardedReserve(l, c, now, spent, request, body, segment);
      var a := r.attempts[|l.attempts|];
      assert r.attempts == l.attempts + [a];
      RefusalKeeps(l, body, a);
  }

  lemma TotalsAfter(attempts: seq<Attempt>, i: nat, a: Attempt)
    requires i < |attempts| && attempts[i].status.Reserved? && !a.status.Reserved?
    ensures Total(attempts[i := a], RESERVED) == Total(attempts, RESERVED) - attempts[i].reservedUsd
    ensures Total(attempts[i := a], COMMITTED) == Total(attempts, COMMITTED)
      + if a.status.Committed? then a.settledUsd else 0.0
    ensures Total(attempts[i := a], UNKNOWN) == Total(attempts, UNKNOWN)
      + if a.status.Unknown? then a.settledUsd else 0.0
  {
    TotalUpdate(attempts, i, a, RESERVED);
    TotalUpdate(attempts, i, a, COMMITTED);
    TotalUpdate(attempts, i, a, UNKNOWN);
    hide Total;
  }

  /** A reservation still open is part of the reserved total, so releasing it never goes below zero. */
  lemma ClampIdle(l: Ledger, i: nat)
    requires Inv(l) && i < |l.attempts| && l.attempts[i].status.Reserved?
    ensures Clamp(l.reserved - l.attempts[i].reservedUsd) == l.reserved - l.attempts[i].reservedUsd
  {
    assert forall x | x in l.attempts :: RowOk(x);
    TotalCovers(l.attempts, RESERVED);
    assert RESERVED(l.attempts[i]) <= Total(l.attempts, RESERVED);
  }

  lemma InvAfter(l: Ledger, i: nat, a: Attempt, r: Ledger)
    requires Inv(l) && i < |l.attempts| && l.attempts[i].status.Reserved? && !a.status.Reserved?
    requires RowOk(a) && a.id == l.attempts[i].id
    requires r == l.(committed := l.committed + (if a.status.Committed? then a.settledUsd else 0.0),
                     reserved := l.reserved - l.attempts[i].reservedUsd,
                     unknown := l.unknown + (if a.status.Unknown? then a.settledUsd else 0.0),
                     attempts := l.attempts[i := a])
    ensures Inv(r)
  {
    TotalsAfter(l.attempts, i, a);
    hide Total, RowOk;
  }

  /** Settling one open attempt: the clamp does not act, and the occupied money changes by the
      difference between what is now charged and what was reserved. */
  lemma SettleAtKeeps(l: Ledger, i: nat, outcome: Outcome, usage: Option<Usage>, detail: string)
    requires Inv(l) && i < |l.attempts| && l.attempts[i].status.Reserved?
    ensures var r := SettleAt(l, i, outcome, usage, detail);
      && Inv(r)
      && r.reserved == l.reserved - l.attempts[i].reservedUsd
      && Occupied(r) == Occupied(l) - l.attempts[i].reservedUsd + r.attempts[i].settledUsd
      && (forall j | 0 <= j < |l.attempts| && j != i :: r.attempts[j] == l.attempts[j])
  {
    var r := SettleAt(l, i, outcome, usage, detail);
    if usage.Some? { CostNonNegative(l.pricing, usage.value); }
    ClampIdle(l, i);
    InvRow(l, i);
    hide Cost, Clamp, Inv;
    InvAfter(l, i, r.attempts[i], r);
  }

  /** An id names its attempt by position; anything else settles nothing. */
  lemma SettleFinds(l: Ledger, id: int, outcome: Outcome, usage: Option<Usage>, detail: string)
    requires Inv(l)
    ensures Settle(l, id, outcome, usage, detail)
         == if 1 <= id <= |l.attempts| && l.attempts[id - 1].status.Reserved?
            then SettleAt(l, id - 1, outcome, usage, detail) else l
  {
    FindFrom(l.attempts, 1, id);
    hide SettleAt, Find;
  }

  lemma SettleKeeps(l: Ledger, id: int, outcome: Outcome, usage: Option<Usage>, detail: string)
    requires Inv(l)
    ensures Inv(Settle(l, id, outcome, usage, detail))
  {
    SettleFinds(l, id, outcome, usage, detail);
    if 1 <= id <= |l.attempts| && l.attempts[id - 1].status.Reserved? {
      SettleAtKeeps(l, id - 1, outcome, usage, detail);
    }
    hide *;
  }

  predicate ForcedTo(before: Attempt, after: Attempt, segment: string, detail: string) {
    if OpenIn(before, segment)
    then after == Detailed(before, detail).(status := Unknown, settledUsd := before.reservedUsd)
    else after == before
  }

  /** Forced settlement turns exactly the open reservations of the segment into unknown ones, and
      leaves the occupied money as it was. */
  lemma {:induction false} ForceKeeps(l: Ledger, segment: string, detail: string, n: nat)
    requires Inv(l) && n <= |l.attempts|
    ensures var r := Force(l, segment, detail, n);
      && Inv(r)
      && Occupied(r) == Occupied(l)
      && r.(reserved := l.reserved, unknown := l.unknown, attempts := l.attempts) == l
      && (forall i | 0 <= i < n :: ForcedTo(l.attempts[i], r.attempts[i], segment, detail))
      && (forall i | n <= i < |l.attempts| :: r.attempts[i] == l.attempts[i])
  {
    hide Inv, Settle, Occupied, OpenIn, ForcedTo;
    if n > 0 {
      ForceKeeps(l, segment, detail, n - 1);
      var done := Force(l, segment, detail, n - 1);
      ForceOne(done, segment, detail, n - 1);
      assert done.attempts[n - 1] == l.attempts[n - 1];
    }
  }

  lemma ForceOne(l: Ledger, segment: string, detail: string, i: nat)
    requires Inv(l) && i < |l.attempts|
    ensures var r := if OpenIn(l.attempts[i], segment) then Settle(l, l.attempts[i].id, Failure, None, detail) else l;
      && Inv(r)
      && Occupied(r) == Occupied(l) && |r.attempts| == |l.attempts|
      && r.(reserved := l.reserved, unknown := l.unknown, attempts := l.attempts) == l
      && ForcedTo(l.attempts[i], r.attempts[i], segment, detail)
      && (forall j | 0 <= j < |l.attempts| && j != i :: r.attempts[j] == l.attempts[j])
  {
    if OpenIn(l.attempts[i], segment) {
      SettleFinds(l, i + 1, Failure, None, detail);
      SettleAtKeeps(l, i, Failure, None, detail);
      hide Inv, Settle, Occupied;
    }
  }

  /** Reloading finds the next id where it was. */
  lemma ReloadKeeps(l: Ledger, cap: real, pricing: Pricing, maxOutput: nat)
    requires Inv(l) && ValidPricing(pricing)
    ensures Inv(Reload(l, cap, pricing, maxOutput)) && Reload(l, cap, pricing, maxOutput).nextId == l.nextId
  {
    MaxIdIsCount(l.attempts);
  }

  lemma StepKeeps(c: Limits, l: Ledger, e: Event)
    requires Inv(l) && Enabled(e)
    ensures Inv(Next(c, l, e))
  {
    match e
    case EvReserve(request, body, segment) => ReserveKeeps(l, request, body, segment);
    case EvGuarded(now, spent, request, body, segment) => GuardedKeeps(l, c, now, spent, request, body, segment);
    case EvSettle(id, outcome, usage, detail) => SettleKeeps(l, id, outcome, usage, detail);
    case EvForce(segment, detail) => ForceKeeps(l, segment, detail, |l.attempts|);
    case EvReload(cap, pricing, maxOutput) => ReloadKeeps(l, cap, pricing, maxOutput);
  }

  lemma {:induction false} RunKeeps(c: Limits, l: Ledger, es: seq<Event>, t: Ledger)
    requires Inv(l) && Reaches(c, l, es, t)
    ensures Inv(t)
    decreases |es|
  {
    hide Inv;
    if es != [] {
      StepKeeps(c, l, es[0]);
      hide Next;
      RunKeeps(c, Next(c, l, es[0]), es[1..], t);
    }
  }

  /** Over every run of a new ledger: each total equals its sum, so no subtraction is ever clamped,
      and ids are unique. */
  lemma TotalsAreSums(c: Limits, cap: real, pricing: Pricing, maxOutput: nat, es: seq<Event>, t: Ledger)
    requires ValidPricing(pricing) && Reaches(c, Fresh(cap, pricing, maxOutput), es, t)
    ensures Inv(t)
  {
    FreshKeeps(cap, pricing, maxOutput);
    RunKeeps(c, Fresh(cap, pricing, maxOutput), es, t);
  }

  // ---- settled once ---------------------------------------------------------------------

  /** What an attempt may become: a settled one nothing else, an open one itself or settled. */
  predicate Continues(before: Attempt, after: Attempt) {
    if before.status.Reserved? then
      && after == before.(status := after.status, settledUsd := after.settledUsd, input := after.input,
                          output := after.output, detail := after.detail)
      && !after.status.RejectedCap?
    else after == before
  }

  lemma StepContinues(c: Limits, l: Ledger, e: Event, i: nat)
    requires Inv(l) && i < |l.attempts|
    ensures i < |Next(c, l, e).attempts| && Continues(l.attempts[i], Next(c, l, e).attempts[i])
  {
    hide Inv, Cost, Estimate, EstimateNow, GuardReason, Occupied, Force, MaxId;
    match e
    case EvForce(segment, detail) => ForceKeeps(l, segment, detail, |l.attempts|);
    case _ =>
  }

  /** Attempts are never removed or renamed, and each settles at most once. */
  lemma {:induction false} SettledOnce(c: Limits, l: Ledger, es: seq<Event>, t: Ledger, i: nat)
    requires Inv(l) && Reaches(c, l, es, t) && i < |l.attempts|
    ensures i < |t.attempts| && Continues(l.attempts[i], t.attempts[i])
    decreases |es|
  {
    if es != [] {
      StepKeeps(c, l, es[0]);
      StepContinues(c, l, es[0], i);
      hide Inv, Next;
      SettledOnce(c, Next(c, l, es[0]), es[1..], t, i);
    }
  }

  // ---- stopped for good -----------------------------------------------------------------

  lemma StepStaysStopped(c: Limits, l: Ledger, e: Event)
    requires Inv(l) && l.capStopped
    ensures Next(c, l, e).capStopped && |l.attempts| <= |Next(c, l, e).attempts|
    ensures forall i | |l.attempts| <= i < |Next(c, l, e).attempts| :: Next(c, l, e).attempts[i].status.RejectedCap?
  {
    hide Cost, Estimate, GuardReason;
    match e
    case EvForce(segment, detail) => ForceKeeps(l, segment, detail, |l.attempts|); hide Inv, Force, Occupied;
    case _ => hide Inv;
  }

  /** Once stopped, always stopped: a raised cap or a new process admits nothing either. */
  lemma {:induction false} StoppedForGood(c: Limits, l: Ledger, es: seq<Event>, t: Ledger)
    requires Inv(l) && l.capStopped && Reaches(c, l, es, t)
    ensures t.capStopped && |l.attempts| <= |t.attempts|
    ensures forall i | |l.attempts| <= i < |t.attempts| :: t.attempts[i].status.RejectedCap?
    decreases |es|
  {
    if es != [] {
      var next := Next(c, l, es[0]);
      StepKeeps(c, l, es[0]);
      StepStaysStopped(c, l, es[0]);
      hide Next, Inv;
      StoppedForGood(c, next, es[1..], t);
      forall i | |l.attempts| <= i < |t.attempts| ensures t.attempts[i].status.RejectedCap? {
        if i < |next.attempts| { SettledOnce(c, next, es[1..], t, i); }
      }
    }
  }

  // ---- the cap --------------------------------------------------------------------------

  /** A committed settlement costs no more than the attempt reserved. */
  ghost predicate Honest(l: Ledger, e: Event) {
    e.EvSettle? && e.outcome.Success? && e.usage.Some? && 1 <= e.id <= |l.attempts| ==>
      Cost(l.pricing, e.usage.value) <= l.attempts[e.id - 1].reservedUsd
  }

  ghost predicate HonestRun(c: Limits, l: Ledger, es: seq<Event>)
    decreases |es|
  {
    es == [] || (Honest(l, es[0]) && HonestRun(c, Next(c, l, es[0]), es[1..]))
  }

  lemma StepWithinCap(c: Limits, l: Ledger, e: Event, top: real)
    requires Inv(l) && Enabled(e) && Honest(l, e) && Occupied(l) <= top && l.cap <= top
    requires e.EvReload? ==> e.cap <= top
    ensures Occupied(Next(c, l, e)) <= top && Next(c, l, e).cap <= top
  {
    hide Cost, Estimate, GuardReason;
    match e
    case EvReserve(request, body, segment) => hide Inv;
    case EvGuarded(now, spent, request, body, segment) => hide Inv;
    case EvSettle(id, outcome, usage, detail) =>
      SettleFinds(l, id, outcome, usage, detail);
      hide Settle;
      if 1 <= id <= |l.attempts| && l.attempts[id - 1].status.Reserved? {
        SettleAtKeeps(l, id - 1, outcome, usage, detail);
        hide Inv, Occupied;
        assert RowOk(l.attempts[id - 1]) by { InvRow(l, id - 1); }
      }
    case EvForce(segment, detail) => ForceKeeps(l, segment, detail, |l.attempts|); hide Inv, Force;
    case EvReload(cap, pricing, maxOutput) => hide Inv;
  }

  lemma InvRow(l: Ledger, i: nat)
    requires Inv(l) && i < |l.attempts|
    ensures RowOk(l.attempts[i])
  {
  }

  lemma {:induction false} RunWithinCap(c: Limits, l: Ledger, es: seq<Event>, t: Ledger, top: real)
    requires Inv(l) && Reaches(c, l, es, t) && HonestRun(c, l, es)
    requires Occupied(l) <= top && l.cap <= top
    requires forall e | e in es && e.EvReload? :: e.cap <= top
    ensures Occupied(t) <= top
    decreases |es|
  {
    if es != [] {
      assert es[0] in es;
      StepKeeps(c, l, es[0]);
      StepWithinCap(c, l, es[0], top);
      hide Inv, Next, Honest, Occupied;
      assert forall e | e in es[1..] :: e in es;
      RunWithinCap(c, Next(c, l, es[0]), es[1..], t, top);
    }
  }

  /** With honest settlements the occupied money of a new ledger never exceeds the highest cap the run
      has seen. */
  lemma WithinHighestCap(c: Limits, cap: real, pricing: Pricing, maxOutput: nat, es: seq<Event>, t: Ledger, top: real)
    requires ValidPricing(pricing) && Reaches(c, Fresh(cap, pricing, maxOutput), es, t)
    requires HonestRun(c, Fresh(cap, pricing, maxOutput), es)
    requires 0.0 <= top && cap <= top && forall e | e in es && e.EvReload? :: e.cap <= top
    ensures Occupied(t) <= top
  {
    FreshKeeps(cap, pricing, maxOutput);
    RunWithinCap(c, Fresh(cap, pricing, maxOutput), es, t, top);
  }

  /** Provider usage inside the estimate's own assumption makes a settlement honest. */
  lemma WithinEstimateIsHonest(l: Ledger, e: Event)
    requires Inv(l) && e.EvSettle? && e.usage.Some? && 1 <= e.id <= |l.attempts|
    requires l.attempts[e.id - 1].status.Reserved? && l.pricing.cached <= l.pricing.input
    requires l.attempts[e.id - 1].estimateUsd
          == Estimate(l.pricing, l.attempts[e.id - 1].body, l.attempts[e.id - 1].maxOutput)
    requires var u := e.usage.value;
      && u.cached <= u.input
      && u.input as real <= l.attempts[e.id - 1].body as real / 4.0 + 256.0
      && u.output <= l.attempts[e.id - 1].maxOutput
    ensures Honest(l, e)
  {
    InvRow(l, e.id - 1);
    var a := l.attempts[e.id - 1];
    CostWithin(l.pricing, e.usage.value, a.body as real / 4.0 + 256.0, a.maxOutput as real);
    hide Cost, Priced, Inv;
  }
}
