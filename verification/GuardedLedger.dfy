/**
 The guarded ledgers, which check campaign limits before the base reservation: at most one attempt
 outstanding, token caps kept by honest usage, and the money they charge set against what they declare.
 */
module GuardedLedger {
  import opened Common
  import opened Sums
  import opened RealSums
  import opened LedgerModel
  import opened LedgerBooks

  /** Input tokens an attempt has used, or may still use. */
  const CLAIM_IN: Attempt -> int := (a: Attempt) =>
    if a.status.RejectedCap? then 0 else if a.status.Reserved? then a.body + PADDING else a.input

  const CLAIM_OUT: Attempt -> int := (a: Attempt) =>
    if a.status.RejectedCap? then 0 else if a.status.Reserved? then a.maxOutput else a.output

  ghost predicate OneOutstanding(attempts: seq<Attempt>) {
    forall i, j | 0 <= i < j < |attempts| :: !(Outstanding(attempts[i]) && Outstanding(attempts[j]))
  }

  ghost predicate GuardInv(c: Limits, l: Ledger) {
    && Inv(l) && OneOutstanding(l.attempts)
    && Sum(l.attempts, CLAIM_IN) <= c.input && Sum(l.attempts, CLAIM_OUT) <= c.output
    && Admitted(l.attempts) <= c.attempts
  }

  /** The provider's usage stays within the request's wire bytes plus padding, and the output bound. */
  ghost predicate HonestTokens(l: Ledger, e: Event) {
    e.EvSettle? && e.outcome.Success? && e.usage.Some? && 1 <= e.id <= |l.attempts| ==>
      && e.usage.value.input <= l.attempts[e.id - 1].body + PADDING
      && e.usage.value.output <= l.attempts[e.id - 1].maxOutput
  }

  /** A run of a guarded ledger: it never reserves without its guard. */
  ghost predicate GuardedRun(c: Limits, l: Ledger, es: seq<Event>)
    decreases |es|
  {
    es == [] || (!es[0].EvReserve? && HonestTokens(l, es[0]) && GuardedRun(c, Next(c, l, es[0]), es[1..]))
  }

  // ---- token sums -----------------------------------------------------------------------

  lemma {:induction false} ClaimsAreTokens(attempts: seq<Attempt>)
    requires forall i | 0 <= i < |attempts| :: !Outstanding(attempts[i])
    ensures Sum(attempts, CLAIM_IN) == InputTokens(attempts) && Sum(attempts, CLAIM_OUT) == OutputTokens(attempts)
  {
    if attempts != [] { ClaimsAreTokens(attempts[..|attempts| - 1]); }
  }

  lemma {:induction false} TokensWithinClaims(attempts: seq<Attempt>)
    requires forall i | 0 <= i < |attempts| :: RowOk(attempts[i])
    ensures InputTokens(attempts) <= Sum(attempts, CLAIM_IN) && OutputTokens(attempts) <= Sum(attempts, CLAIM_OUT)
  {
    if attempts != [] { TokensWithinClaims(attempts[..|attempts| - 1]); }
  }

  lemma AdmittedAppend(attempts: seq<Attempt>, a: Attempt)
    ensures Admitted(attempts + [a]) == Admitted(attempts) + if a.status.RejectedCap? then 0 else 1
  {
    assert (attempts + [a])[..|attempts|] == attempts;
  }

  lemma {:induction false} AdmittedUpdate(attempts: seq<Attempt>, i: nat, a: Attempt)
    requires i < |attempts| && (a.status.RejectedCap? <==> attempts[i].status.RejectedCap?)
    ensures Admitted(attempts[i := a]) == Admitted(attempts)
  {
    var n := |attempts| - 1;
    if i == n {
      assert attempts[i := a][..n] == attempts[..n];
    } else {
      assert attempts[i := a][..n] == attempts[..n][i := a];
      AdmittedUpdate(attempts[..n], i, a);
    }
  }

  // ---- steps ----------------------------------------------------------------------------

  lemma AppendKeeps(c: Limits, attempts: seq<Attempt>, a: Attempt)
    requires OneOutstanding(attempts)
    requires Sum(attempts, CLAIM_IN) + CLAIM_IN(a) <= c.input && Sum(attempts, CLAIM_OUT) + CLAIM_OUT(a) <= c.output
    requires Admitted(attempts) + (if a.status.RejectedCap? then 0 else 1) <= c.attempts
    requires Outstanding(a) ==> forall i | 0 <= i < |attempts| :: !Outstanding(attempts[i])
    ensures OneOutstanding(attempts + [a]) && Admitted(attempts + [a]) <= c.attempts
    ensures Sum(attempts + [a], CLAIM_IN) <= c.input && Sum(attempts + [a], CLAIM_OUT) <= c.output
  {
    hide Sum, Admitted;
    SumAppend(attempts, a, CLAIM_IN);
    SumAppend(attempts, a, CLAIM_OUT);
    AdmittedAppend(attempts, a);
  }

  lemma GuardedRow(c: Limits, l: Ledger, now: int, spent: bool, request: int, body: nat, segment: string)
    ensures var r := GuardedReserve(l, c, now, spent, request, body, segment);
      && |r.attempts| == |l.attempts| + 1 && r.attempts == l.attempts + [r.attempts[|l.attempts|]]
      && (r.attempts[|l.attempts|].status.Reserved? || r.attempts[|l.attempts|].status.RejectedCap?)
  {
    hide Estimate, EstimateNow, Occupied, GuardReason;
  }

  lemma GuardedReserveKeeps(c: Limits, l: Ledger, now: int, spent: bool, request: int, body: nat, segment: string)
    requires GuardInv(c, l)
    ensures GuardInv(c, GuardedReserve(l, c, now, spent, request, body, segment))
  {
    hide Inv, GuardedReserve, Sum, Admitted, InputTokens, OutputTokens, Occupied, Estimate, EstimateNow, OneOutstanding;
    GuardedKeeps(l, c, now, spent, request, body, segment);
    GuardedRow(c, l, now, spent, request, body, segment);
    var a := GuardedReserve(l, c, now, spent, request, body, segment).attempts[|l.attempts|];
    if a.status.Reserved? {
      AdmittedMeans(c, l, now, spent, request, body, segment);
      ClaimsAreTokens(l.attempts);
    }
    AppendKeeps(c, l.attempts, a);
  }

  /** An admission of a guarded ledger passed every limit. */
  lemma AdmittedMeans(c: Limits, l: Ledger, now: int, spent: bool, request: int, body: nat, segment: string)
    requires GuardedReserve(l, c, now, spent, request, body, segment).attempts[|l.attempts|].status.Reserved?
    ensures forall i | 0 <= i < |l.attempts| :: !Outstanding(l.attempts[i])
    ensures now < c.deadline && !spent && Admitted(l.attempts) + 1 <= c.attempts
    ensures InputTokens(l.attempts) + body + PADDING <= c.input
    ensures OutputTokens(l.attempts) + l.maxOutput <= c.output
    ensures !l.capStopped && Occupied(l) + EstimateNow(l, body) <= l.cap
    ensures var a := GuardedReserve(l, c, now, spent, request, body, segment).attempts[|l.attempts|];
      a.body == body && a.maxOutput == l.maxOutput && a.estimateUsd == EstimateNow(l, body)
  {
    hide Admitted, InputTokens, OutputTokens, Occupied, EstimateNow;
  }

  lemma UpdateKeeps(c: Limits, attempts: seq<Attempt>, i: nat, a: Attempt)
    requires i < |attempts| && OneOutstanding(attempts) && Outstanding(attempts[i])
    requires !a.status.RejectedCap? && CLAIM_IN(a) <= CLAIM_IN(attempts[i]) && CLAIM_OUT(a) <= CLAIM_OUT(attempts[i])
    requires Sum(attempts, CLAIM_IN) <= c.input && Sum(attempts, CLAIM_OUT) <= c.output
    requires Admitted(attempts) <= c.attempts
    ensures OneOutstanding(attempts[i := a]) && Admitted(attempts[i := a]) <= c.attempts
    ensures Sum(attempts[i := a], CLAIM_IN) <= c.input && Sum(attempts[i := a], CLAIM_OUT) <= c.output
  {
    SumUpdate(attempts, i, a, CLAIM_IN);
    SumUpdate(attempts, i, a, CLAIM_OUT);
    AdmittedUpdate(attempts, i, a);
    hide Sum, Admitted;
  }

  lemma SettleAtGuarded(c: Limits, l: Ledger, i: nat, outcome: Outcome, usage: Option<Usage>, detail: string)
    requires GuardInv(c, l) && i < |l.attempts| && l.attempts[i].status.Reserved?
    requires outcome.Success? && usage.Some? ==>
      usage.value.input <= l.attempts[i].body + PADDING && usage.value.output <= l.attempts[i].maxOutput
    ensures GuardInv(c, SettleAt(l, i, outcome, usage, detail))
  {
    SettleAtKeeps(l, i, outcome, usage, detail);
    InvRow(l, i);
    hide Inv, Cost, Clamp;
    var r := SettleAt(l, i, outcome, usage, detail);
    assert r.attempts == l.attempts[i := r.attempts[i]];
    UpdateKeeps(c, l.attempts, i, r.attempts[i]);
  }

  lemma SettleGuarded(c: Limits, l: Ledger, e: Event)
    requires GuardInv(c, l) && e.EvSettle? && HonestTokens(l, e)
    ensures GuardInv(c, Settle(l, e.id, e.outcome, e.usage, e.detail))
  {
    SettleFinds(l, e.id, e.outcome, e.usage, e.detail);
    hide Settle, SettleAt, GuardInv;
    if 1 <= e.id <= |l.attempts| && l.attempts[e.id - 1].status.Reserved? {
      SettleAtGuarded(c, l, e.id - 1, e.outcome, e.usage, e.detail);
    }
  }

  lemma {:induction false} ForceGuarded(c: Limits, l: Ledger, segment: string, detail: string, n: nat)
    requires GuardInv(c, l) && n <= |l.attempts|
    ensures GuardInv(c, Force(l, segment, detail, n))
  {
    if n > 0 {
      ForceGuarded(c, l, segment, detail, n - 1);
      var done := Force(l, segment, detail, n - 1);
      SettleGuarded(c, done, EvSettle(done.attempts[n - 1].id, Failure, None, detail));
      hide GuardInv, Settle;
    }
  }

  lemma StepKeepsGuard(c: Limits, l: Ledger, e: Event)
    requires GuardInv(c, l) && Enabled(e) && !e.EvReserve? && HonestTokens(l, e)
    ensures GuardInv(c, Next(c, l, e))
  {
    match e
    case EvGuarded(now, spent, request, body, segment) => GuardedReserveKeeps(c, l, now, spent, request, body, segment);
    case EvSettle(id, outcome, usage, detail) => SettleGuarded(c, l, e);
    case EvForce(segment, detail) => ForceGuarded(c, l, segment, detail, |l.attempts|);
    case EvReload(cap, pricing, maxOutput) => ReloadKeeps(l, cap, pricing, maxOutput);
  }

  lemma {:induction false} GuardedRunFrom(c: Limits, l: Ledger, es: seq<Event>, t: Ledger)
    requires GuardInv(c, l) && Reaches(c, l, es, t) && GuardedRun(c, l, es)
    ensures GuardInv(c, t)
    ensures InputTokens(t.attempts) <= c.input && OutputTokens(t.attempts) <= c.output
    decreases |es|
  {
    if es == [] {
      assert Inv(l);
      TokensWithinClaims(t.attempts);
    } else {
      StepKeepsGuard(c, l, es[0]);
      hide GuardInv, Next, HonestTokens;
      GuardedRunFrom(c, Next(c, l, es[0]), es[1..], t);
    }
  }

  lemma FreshGuarded(c: Limits, cap: real, pricing: Pricing, maxOutput: nat)
    requires ValidPricing(pricing)
    ensures GuardInv(c, Fresh(cap, pricing, maxOutput))
  {
    FreshKeeps(cap, pricing, maxOutput);
    hide Inv;
  }

  /** From a new ledger: at most one attempt is ever outstanding, and committed tokens and admissions
      stay within the caps. */
  lemma GuardedRunKeeps(c: Limits, cap: real, pricing: Pricing, maxOutput: nat, es: seq<Event>, t: Ledger)
    requires ValidPricing(pricing) && Reaches(c, Fresh(cap, pricing, maxOutput), es, t)
    requires GuardedRun(c, Fresh(cap, pricing, maxOutput), es)
    ensures OneOutstanding(t.attempts) && Admitted(t.attempts) <= c.attempts
    ensures InputTokens(t.attempts) <= c.input && OutputTokens(t.attempts) <= c.output
  {
    FreshGuarded(c, cap, pricing, maxOutput);
    GuardedRunFrom(c, Fresh(cap, pricing, maxOutput), es, t);
  }

  /** Asking while an attempt is outstanding stops the ledger. */
  lemma OutstandingStops(c: Limits, l: Ledger, e: Event)
    requires AnyOutstanding(l) && e.EvGuarded?
    ensures Next(c, l, e).capStopped && Next(c, l, e).attempts[|l.attempts|].status.RejectedCap?
  {
    hide AnyOutstanding;
  }

  /** After one attempt of unknown usage, nothing is admitted again. */
  lemma {:induction false} UnknownEndsAdmission(c: Limits, l: Ledger, es: seq<Event>, t: Ledger, i: nat)
    requires Inv(l) && Reaches(c, l, es, t) && (forall e | e in es :: !e.EvReserve?)
    requires i < |l.attempts| && l.attempts[i].status.Unknown?
    ensures |l.attempts| <= |t.attempts|
    ensures forall j | |l.attempts| <= j < |t.attempts| :: t.attempts[j].status.RejectedCap?
    decreases |es|
  {
    if es != [] {
      assert es[0] in es;
      assert forall e | e in es[1..] :: e in es;
      var next := Next(c, l, es[0]);
      StepKeeps(c, l, es[0]);
      StepContinues(c, l, es[0], i);
      StepWithUnknown(c, l, es[0], i);
      hide Inv, Next;
      UnknownEndsAdmission(c, next, es[1..], t, i);
      forall j | |l.attempts| <= j < |t.attempts| ensures t.attempts[j].status.RejectedCap? {
        if j < |next.attempts| { SettledOnce(c, next, es[1..], t, j); }
      }
    }
  }

  lemma StepWithUnknown(c: Limits, l: Ledger, e: Event, i: nat)
    requires Inv(l) && !e.EvReserve? && i < |l.attempts| && l.attempts[i].status.Unknown?
    ensures |l.attempts| <= |Next(c, l, e).attempts|
    ensures forall j | |l.attempts| <= j < |Next(c, l, e).attempts| :: Next(c, l, e).attempts[j].status.RejectedCap?
  {
    if e.EvGuarded? {
      assert Outstanding(l.attempts[i]);
      OutstandingStops(c, l, e);
    }
    if e.EvForce? { ForceKeeps(l, e.segment, e.detail, |l.attempts|); }
    hide Cost, Estimate, GuardReason, Force, Inv;
  }

  // ---- charged and declared -------------------------------------------------------------

  /** What a ledger says it reserves: estimate_reserve_usd from its two declared parameters. */
  function DeclaredReserve(p: Pricing, perByte: real, padding: nat, body: nat, maxOutput: nat): real {
    Priced(p, body as real * perByte + padding as real, maxOutput as real)
  }

  /** The base ledger charges what it declares. */
  lemma BaseChargesDeclared(p: Pricing, body: nat, maxOutput: nat)
    ensures Estimate(p, body, maxOutput) == DeclaredReserve(p, 0.25, 256, body, maxOutput)
  {
    assert body as real * 0.25 == body as real / 4.0;
  }

  /** What the byte-per-token ledger declares beyond what it charges. */
  function Gap(p: Pricing, body: nat): real { (body as real * 0.75 + 7936.0) * p.input / 1000000.0 }

  /** It charges less than it declares exactly when input has a price. */
  lemma WireLedgerChargesLess(p: Pricing, body: nat, maxOutput: nat)
    requires ValidPricing(p)
    ensures Estimate(p, body, maxOutput) + Gap(p, body) == DeclaredReserve(p, 1.0, PADDING, body, maxOutput)
    ensures Estimate(p, body, maxOutput) < DeclaredReserve(p, 1.0, PADDING, body, maxOutput) <==> p.input > 0.0
  {
    var b := body as real;
    Spread(b / 4.0 + 256.0, b * 0.75 + 7936.0, p.input);
    assert b / 4.0 + 256.0 + (b * 0.75 + 7936.0) == b * 1.0 + PADDING as real;
    Positive(b * 0.75 + 7936.0, p.input);
  }

  lemma Positive(a: real, c: real)
    requires a > 0.0 && c >= 0.0
    ensures a * c > 0.0 <==> c > 0.0
  {
  }

  lemma GapGrows(p: Pricing, body: nat, top: nat)
    requires ValidPricing(p) && body <= top
    ensures 0.0 <= Gap(p, body) <= Gap(p, top)
  {
    Scaled(body as real * 0.75 + 7936.0, top as real * 0.75 + 7936.0, p.input);
    Product(body as real * 0.75 + 7936.0, p.input);
  }

  // ---- how far a guarded ledger overshoots its cap --------------------------------------

  ghost predicate Overshoot(l: Ledger, p: Pricing, top: real, maxBody: nat) {
    && l.pricing == p && l.cap <= top
    && (forall i | 0 <= i < |l.attempts| && l.attempts[i].status.Reserved? :: var a := l.attempts[i];
          a.body <= maxBody && a.estimateUsd == Estimate(p, a.body, a.maxOutput) && Occupied(l) <= top)
    && Occupied(l) <= top + Gap(p, maxBody)
  }

  /** Settlements within the declared bounds, prices unchanged, caps and bodies bounded. */
  ghost predicate Bounded(l: Ledger, e: Event, p: Pricing, top: real, maxBody: nat) {
    && !e.EvReserve? && HonestTokens(l, e)
    && (e.EvSettle? && e.usage.Some? ==> e.usage.value.cached <= e.usage.value.input)
    && (e.EvGuarded? ==> e.body <= maxBody)
    && (e.EvReload? ==> e.pricing == p && e.cap <= top)
  }

  lemma SettleOvershoot(l: Ledger, i: nat, outcome: Outcome, usage: Option<Usage>, detail: string, p: Pricing,
                        top: real, maxBody: nat)
    requires Inv(l) && OneOutstanding(l.attempts) && Overshoot(l, p, top, maxBody) && p.cached <= p.input
    requires i < |l.attempts| && l.attempts[i].status.Reserved?
    requires outcome.Success? && usage.Some? ==>
      && usage.value.cached <= usage.value.input
      && usage.value.input <= l.attempts[i].body + PADDING && usage.value.output <= l.attempts[i].maxOutput
    ensures Overshoot(SettleAt(l, i, outcome, usage, detail), p, top, maxBody)
  {
    var a, r := l.attempts[i], SettleAt(l, i, outcome, usage, detail);
    SettleAtKeeps(l, i, outcome, usage, detail);
    InvRow(l, i);
    GapGrows(p, a.body, maxBody);
    WireLedgerChargesLess(p, a.body, a.maxOutput);
    assert DeclaredReserve(p, 1.0, PADDING, a.body, a.maxOutput)
        == Priced(p, (a.body + PADDING) as real, a.maxOutput as real);
    if outcome.Success? && usage.Some? {
      CostWithin(p, usage.value, (a.body + PADDING) as real, a.maxOutput as real);
    }
    hide Inv, Cost, Priced, Gap, Estimate, Clamp;
    assert r.attempts[i].settledUsd <= a.reservedUsd + Gap(p, a.body);
    assert forall j | 0 <= j < |r.attempts| :: !r.attempts[j].status.Reserved?;
  }

  lemma StepOvershoot(c: Limits, l: Ledger, e: Event, p: Pricing, top: real, maxBody: nat)
    requires GuardInv(c, l) && Overshoot(l, p, top, maxBody) && p.cached <= p.input && Enabled(e)
    requires Bounded(l, e, p, top, maxBody)
    ensures Overshoot(Next(c, l, e), p, top, maxBody)
  {
    GapGrows(p, 0, maxBody);
    match e
    case EvGuarded(now, spent, request, body, segment) =>
      ReserveOvershoot(c, l, e, p, top, maxBody);
    case EvSettle(id, outcome, usage, detail) =>
      SettleFinds(l, id, outcome, usage, detail);
      hide Settle, SettleAt, Overshoot;
      if 1 <= id <= |l.attempts| && l.attempts[id - 1].status.Reserved? {
        SettleOvershoot(l, id - 1, outcome, usage, detail, p, top, maxBody);
      }
    case EvForce(segment, detail) =>
      ForceKeeps(l, segment, detail, |l.attempts|);
      hide Inv, Force, Estimate, Gap, Occupied, GuardInv;
    case EvReload(cap, pricing, maxOutput) => hide Inv, Estimate, Gap;
  }

  lemma ReserveOvershoot(c: Limits, l: Ledger, e: Event, p: Pricing, top: real, maxBody: nat)
    requires GuardInv(c, l) && Overshoot(l, p, top, maxBody) && e.EvGuarded? && e.body <= maxBody
    ensures Overshoot(Next(c, l, e), p, top, maxBody)
  {
    var r := Next(c, l, e);
    assert r.attempts[..|l.attempts|] == l.attempts && |r.attempts| == |l.attempts| + 1 by {
      hide Estimate, GuardReason, GuardInv;
    }
    assert forall i | 0 <= i < |l.attempts| :: r.attempts[i] == l.attempts[i] by {
      assert forall i | 0 <= i < |l.attempts| :: r.attempts[..|l.attempts|][i] == r.attempts[i];
    }
    if r.attempts[|l.attempts|].status.Reserved? {
      AdmittedMeans(c, l, e.now, e.spent, e.request, e.body, e.segment);
      EstimateNonNegative(l.pricing, e.body, l.maxOutput);
      GapGrows(p, 0, maxBody);
    }
    hide GuardInv, Inv, Gap, Estimate, GuardReason;
  }

  lemma {:induction false} OvershootFrom(
    c: Limits, l: Ledger, es: seq<Event>, t: Ledger, p: Pricing, top: real, maxBody: nat)
    requires GuardInv(c, l) && Overshoot(l, p, top, maxBody) && p.cached <= p.input && Reaches(c, l, es, t)
    requires BoundedRun(c, l, es, p, top, maxBody)
    ensures Occupied(t) <= top + Gap(p, maxBody)
    decreases |es|
  {
    if es != [] {
      StepKeepsGuard(c, l, es[0]);
      StepOvershoot(c, l, es[0], p, top, maxBody);
      hide GuardInv, Overshoot, Bounded, Next, Occupied, Gap;
      OvershootFrom(c, Next(c, l, es[0]), es[1..], t, p, top, maxBody);
    }
  }

  ghost predicate BoundedRun(c: Limits, l: Ledger, es: seq<Event>, p: Pricing, top: real, maxBody: nat)
    decreases |es|
  {
    es == [] || (Bounded(l, es[0], p, top, maxBody) && BoundedRun(c, Next(c, l, es[0]), es[1..], p, top, maxBody))
  }

  /** t is reached from a new ledger by guarded reservations of bodies up to maxBody, settled within
      what was declared for them; prices stay, and no cap is above top. */
  ghost predicate ReachedBounded(c: Limits, p: Pricing, es: seq<Event>, t: Ledger, top: real, maxBody: nat) {
    exists cap: real, maxOutput: nat | 0.0 <= cap <= top ::
      Reaches(c, Fresh(cap, p, maxOutput), es, t) && BoundedRun(c, Fresh(cap, p, maxOutput), es, p, top, maxBody)
  }

  /** One declared gap bounds how far occupied money can pass the highest cap. */
  lemma OvershootIsBounded(c: Limits, p: Pricing, es: seq<Event>, t: Ledger, top: real, maxBody: nat)
    requires ValidPricing(p) && p.cached <= p.input && ReachedBounded(c, p, es, t, top, maxBody)
    ensures Occupied(t) <= top + Gap(p, maxBody)
  {
    var cap: real, maxOutput: nat :| 0.0 <= cap <= top
      && Reaches(c, Fresh(cap, p, maxOutput), es, t) && BoundedRun(c, Fresh(cap, p, maxOutput), es, p, top, maxBody);
    FreshGuarded(c, cap, p, maxOutput);
    GapGrows(p, 0, maxBody);
    hide GuardInv, Gap, Reaches, BoundedRun;
    assert Overshoot(Fresh(cap, p, maxOutput), p, top, maxBody);
    OvershootFrom(c, Fresh(cap, p, maxOutput), es, t, p, top, maxBody);
  }

  /** The bound is attained by one request of any size: with a cap of exactly what it is charged, and
      settled at exactly what was declared, it ends a whole gap above the cap. */
  lemma OvershootIsAttained(p: Pricing, body: nat, maxOutput: nat)
    returns (c: Limits, es: seq<Event>, t: Ledger, top: real)
    requires ValidPricing(p)
    ensures ReachedBounded(c, p, es, t, top, body) && top == Estimate(p, body, maxOutput)
    ensures Occupied(t) == top + Gap(p, body)
  {
    c := Limits(1, 1, body + PADDING, maxOutput);
    top := Estimate(p, body, maxOutput);
    EstimateNonNegative(p, body, maxOutput);
    var l := Fresh(top, p, maxOutput);
    var usage := Usage(body + PADDING, 0, maxOutput);
    var first, second := EvGuarded(0, false, 1, body, ""), EvSettle(1, Success, Some(usage), "");
    var held := Next(c, l, first);
    OneReservation(c, p, body, maxOutput);
    t := Next(c, held, second);
    SettledInFull(p, body, maxOutput, held);
    es := [first, second];
    hide Next, Estimate, Gap, Occupied, Cost;
    assert es[1..] == [second] && [second][1..] == [];
    assert Reaches(c, t, [], t);
    assert Reaches(c, held, [second], t);
    assert BoundedRun(c, held, [second], p, top, body) by { assert BoundedRun(c, t, [], p, top, body); }
    assert Reaches(c, Fresh(top, p, maxOutput), es, t) && BoundedRun(c, Fresh(top, p, maxOutput), es, p, top, body);
  }

  /** The reservation that attains the bound. */
  function Held(p: Pricing, body: nat, maxOutput: nat): Attempt {
    var estimate := Estimate(p, body, maxOutput);
    Attempt(1, 1, "", Reserved, estimate, 0.0, estimate, 0, 0, Blank, body, maxOutput)
  }

  lemma OneReservation(c: Limits, p: Pricing, body: nat, maxOutput: nat)
    requires c == Limits(1, 1, body + PADDING, maxOutput)
    ensures Next(c, Fresh(Estimate(p, body, maxOutput), p, maxOutput), EvGuarded(0, false, 1, body, ""))
         == Fresh(Estimate(p, body, maxOutput), p, maxOutput).(
              reserved := Estimate(p, body, maxOutput), nextId := 2, attempts := [Held(p, body, maxOutput)])
  {
    hide Estimate;
  }

  lemma SettledInFull(p: Pricing, body: nat, maxOutput: nat, held: Ledger)
    requires held.attempts == [Held(p, body, maxOutput)] && held.pricing == p
    requires held.reserved == Estimate(p, body, maxOutput) && held.committed == 0.0 == held.unknown
    requires ValidPricing(p)
    ensures var t := Settle(held, 1, Success, Some(Usage(body + PADDING, 0, maxOutput)), "");
      Occupied(t) == Estimate(p, body, maxOutput) + Gap(p, body)
  {
    WireLedgerChargesLess(p, body, maxOutput);
    var usage := Usage(body + PADDING, 0, maxOutput);
    assert Cost(p, usage) == DeclaredReserve(p, 1.0, PADDING, body, maxOutput);
    hide Cost, Estimate, Gap, DeclaredReserve;
    assert Find(held.attempts, 1) == Some(0);
  }

  lemma GapVanishes(p: Pricing, body: nat)
    requires ValidPricing(p)
    ensures Gap(p, body) == 0.0 <==> p.input == 0.0
  {
    Positive(body as real * 0.75 + 7936.0, p.input);
  }

  /** Settling inside the declared bound keeps the cap if and only if input has no price: otherwise a
      run passes it for every size of request. */
  lemma CapKeptExactly(p: Pricing, body: nat, maxOutput: nat)
    requires ValidPricing(p) && p.cached <= p.input
    ensures p.input == 0.0 <==>
      forall c, es, t, top, maxBody | ReachedBounded(c, p, es, t, top, maxBody) :: Occupied(t) <= top
    ensures p.input > 0.0 ==> exists c, es, t, top ::
      ReachedBounded(c, p, es, t, top, body) && top == Estimate(p, body, maxOutput) < Occupied(t)
  {
    forall c, es, t, top, maxBody | ReachedBounded(c, p, es, t, top, maxBody) && p.input == 0.0
      ensures Occupied(t) <= top
    {
      OvershootIsBounded(c, p, es, t, top, maxBody);
      GapVanishes(p, maxBody);
    }
    var c, es, t, top := OvershootIsAttained(p, body, maxOutput);
    GapVanishes(p, body);
    GapGrows(p, 0, body);
    GapGrows(p, body, body);
    hide ReachedBounded, Occupied, Gap, Estimate;
  }

  const DEFAULT_PRICING := Pricing(0.3, 0.006, 1.2)

  /** At the default prices, a request of 4096 bytes with the default output bound passes its cap. */
  lemma DefaultPricesPassTheCap() returns (c: Limits, es: seq<Event>, t: Ledger, top: real)
    ensures ReachedBounded(c, DEFAULT_PRICING, es, t, top, 4096) && top == Estimate(DEFAULT_PRICING, 4096, 8192)
    ensures Occupied(t) - top == 0.0033024
  {
    c, es, t, top := OvershootIsAttained(DEFAULT_PRICING, 4096, 8192);
    assert Gap(DEFAULT_PRICING, 4096) == 0.0033024;
  }
}
