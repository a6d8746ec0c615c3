/**
 The campaign budget ledger: reservations before a request is forwarded, one settlement each, forced
 settlement of a segment, and reloads that keep the books but may change cap and prices. Amounts are
 exact reals. body and maxOutput on an attempt record what it was admitted with.
 */
module LedgerModel {
  import opened Common
  import opened RealSums

  datatype Pricing = Pricing(input: real, cached: real, output: real)

  datatype Usage = Usage(input: nat, cached: nat, output: nat)

  datatype Status = Reserved | Committed | Unknown | RejectedCap | RateLimited

  datatype Reason = Unsettled | Deadline | AttemptCap | DecisionOrTool | InputCap | OutputCap

  datatype Detail = Blank | CapRefusal | GuardRefusal(reason: Reason) | Note(text: string)

  datatype Attempt = Attempt(
    id: int, request: int, segment: string, status: Status,
    reservedUsd: real, settledUsd: real, estimateUsd: real, input: nat, output: nat, detail: Detail,
    body: nat, maxOutput: nat)

  datatype Ledger = Ledger(
    committed: real, reserved: real, unknown: real, capStopped: bool, attempts: seq<Attempt>,
    nextId: int, cap: real, pricing: Pricing, maxOutput: nat)

  datatype Outcome = Success | RateLimit | Failure

  predicate ValidPricing(p: Pricing) { p.input >= 0.0 && p.cached >= 0.0 && p.output >= 0.0 }

  // ---- prices ---------------------------------------------------------------------------

  function Priced(p: Pricing, input: real, output: real): real {
    (input * p.input + output * p.output) / 1000000.0
  }

  /** Pricing.reserve_estimate_usd. */
  function Estimate(p: Pricing, body: nat, maxOutput: nat): real {
    Priced(p, body as real / 4.0 + 256.0, maxOutput as real)
  }

  /** Pricing.attempt_cost_usd. */
  function Cost(p: Pricing, u: Usage): real {
    var miss := if u.input > u.cached then u.input - u.cached else 0;
    (miss as real * p.input + u.cached as real * p.cached + u.output as real * p.output) / 1000000.0
  }

  lemma EstimateNonNegative(p: Pricing, body: nat, maxOutput: nat)
    requires ValidPricing(p)
    ensures Estimate(p, body, maxOutput) >= 0.0
  {
    Product(body as real / 4.0 + 256.0, p.input);
    Product(maxOutput as real, p.output);
  }

  lemma CostNonNegative(p: Pricing, u: Usage)
    requires ValidPricing(p)
    ensures Cost(p, u) >= 0.0
  {
    Product((if u.input > u.cached then u.input - u.cached else 0) as real, p.input);
    Product(u.cached as real, p.cached);
    Product(u.output as real, p.output);
  }

  lemma Product(a: real, b: real)
    requires a >= 0.0 && b >= 0.0
    ensures a * b >= 0.0
  {
  }

  lemma Scaled(a: real, b: real, c: real)
    requires a <= b && c >= 0.0
    ensures a * c <= b * c
  {
    Product(b - a, c);
  }

  /** Usage within bounds on input and output costs no more than the bounds at the full input price. */
  lemma CostWithin(p: Pricing, u: Usage, input: real, output: real)
    requires ValidPricing(p) && p.cached <= p.input
    requires u.cached <= u.input && u.input as real <= input && u.output as real <= output
    ensures Cost(p, u) <= Priced(p, input, output)
  {
    var c, miss := u.cached as real, (if u.input > u.cached then u.input - u.cached else 0) as real;
    assert miss + c == u.input as real;
    CostBound(miss, c, u.output as real, p.input, p.cached, p.output, input, output);
    PerMillion(miss * p.input + c * p.cached + u.output as real * p.output, input * p.input + output * p.output);
  }

  lemma CostBound(miss: real, c: real, out: real, inPrice: real, cachedPrice: real, outPrice: real, input: real,
                  output: real)
    requires 0.0 <= c && 0.0 <= cachedPrice <= inPrice && 0.0 <= outPrice && miss + c <= input && out <= output
    ensures miss * inPrice + c * cachedPrice + out * outPrice <= input * inPrice + output * outPrice
  {
    ScaledBy(c, cachedPrice, inPrice);
    Spread(miss, c, inPrice);
    Scaled(miss + c, input, inPrice);
    Scaled(out, output, outPrice);
  }

  lemma ScaledBy(c: real, a: real, b: real)
    requires a <= b && c >= 0.0
    ensures c * a <= c * b
  {
    Product(c, b - a);
  }

  lemma Spread(a: real, b: real, c: real)
    ensures (a + b) * c == a * c + b * c
  {
  }

  lemma PerMillion(a: real, b: real)
    requires a <= b
    ensures a / 1000000.0 <= b / 1000000.0
  {
  }

  // ---- the operations -------------------------------------------------------------------

  function Occupied(l: Ledger): real { l.committed + l.reserved + l.unknown }

  function EstimateNow(l: Ledger, body: nat): real { Estimate(l.pricing, body, l.maxOutput) }

  predicate Refuses(l: Ledger, body: nat) { l.capStopped || Occupied(l) + EstimateNow(l, body) > l.cap }

  function Reserve(l: Ledger, request: int, body: nat, segment: string): Ledger {
    var estimate := EstimateNow(l, body);
    if Refuses(l, body) then
      l.(capStopped := true, nextId := l.nextId + 1,
         attempts := l.attempts +
           [Attempt(l.nextId, request, segment, RejectedCap, 0.0, 0.0, estimate, 0, 0, CapRefusal, body, l.maxOutput)])
    else
      l.(reserved := l.reserved + estimate, nextId := l.nextId + 1,
         attempts := l.attempts + [Attempt(l.nextId, request, segment, Reserved, estimate, 0.0, estimate, 0, 0, Blank,
                                           body, l.maxOutput)])
  }

  /** The first attempt with the id. */
  function Find(attempts: seq<Attempt>, id: int): (r: Option<nat>)
    ensures r.Some? ==> r.value < |attempts| && attempts[r.value].id == id
  {
    if attempts == [] then None
    else if attempts[0].id == id then Some(0)
    else match Find(attempts[1..], id)
      case None => None
      case Some(i) => Some(i + 1)
  }

  function Clamp(x: real): real { if x >= 0.0 then x else 0.0 }

  function Detailed(a: Attempt, detail: string): Attempt { if detail == "" then a else a.(detail := Note(detail)) }

  function SettleAt(l: Ledger, i: nat, outcome: Outcome, usage: Option<Usage>, detail: string): Ledger
    requires i < |l.attempts|
  {
    var a := Detailed(l.attempts[i], detail);
    var freed := l.(reserved := Clamp(l.reserved - a.reservedUsd));
    if outcome.Success? && usage.Some? then
      var cost := Cost(l.pricing, usage.value);
      freed.(committed := l.committed + cost,
             attempts := l.attempts[i := a.(status := Committed, settledUsd := cost, input := usage.value.input,
                                            output := usage.value.output)])
    else if outcome.RateLimit? then
      freed.(attempts := l.attempts[i := a.(status := RateLimited, settledUsd := 0.0)])
    else
      freed.(unknown := l.unknown + a.reservedUsd,
             attempts := l.attempts[i := a.(status := Unknown, settledUsd := a.reservedUsd)])
  }

  function Settle(l: Ledger, id: int, outcome: Outcome, usage: Option<Usage>, detail: string): Ledger {
    match Find(l.attempts, id)
    case None => l
    case Some(i) => if l.attempts[i].status.Reserved? then SettleAt(l, i, outcome, usage, detail) else l
  }

  predicate OpenIn(a: Attempt, segment: string) { a.segment == segment && a.status.Reserved? }

  /** force_settle_segment, over the first n attempts. */
  function Force(l: Ledger, segment: string, detail: string, n: nat): (r: Ledger)
    requires n <= |l.attempts|
    ensures |r.attempts| == |l.attempts|
  {
    if n == 0 then l
    else
      var done := Force(l, segment, detail, n - 1);
      if OpenIn(done.attempts[n - 1], segment) then Settle(done, done.attempts[n - 1].id, Failure, None, detail)
      else done
  }

  /** A new process opens the saved ledger with its own cap, prices and output bound. */
  function Reload(l: Ledger, cap: real, pricing: Pricing, maxOutput: nat): Ledger {
    l.(cap := cap, pricing := pricing, maxOutput := maxOutput, nextId := MaxId(l.attempts) + 1)
  }

  function MaxId(attempts: seq<Attempt>): int {
    if attempts == [] then 0
    else
      var rest := MaxId(attempts[..|attempts| - 1]);
      var id := attempts[|attempts| - 1].id;
      if |attempts| == 1 || id > rest then id else rest
  }

  function Fresh(cap: real, pricing: Pricing, maxOutput: nat): Ledger {
    Ledger(0.0, 0.0, 0.0, false, [], 1, cap, pricing, maxOutput)
  }

  // ---- guarded reservations -------------------------------------------------------------

  /** The campaign limits a guarded ledger checks before it reserves. */
  datatype Limits = Limits(deadline: int, attempts: nat, input: nat, output: nat)

  const PADDING := 8192

  predicate Outstanding(a: Attempt) { a.status.Reserved? || a.status.Unknown? }

  predicate AnyOutstanding(l: Ledger) { exists i :: 0 <= i < |l.attempts| && Outstanding(l.attempts[i]) }

  function Admitted(attempts: seq<Attempt>): nat {
    if attempts == [] then 0
    else Admitted(attempts[..|attempts| - 1]) + if attempts[|attempts| - 1].status.RejectedCap? then 0 else 1
  }

  /** Input tokens of the admitted attempts; attempts without usage count nothing. */
  function InputTokens(attempts: seq<Attempt>): nat {
    if attempts == [] then 0
    else
      var a := attempts[|attempts| - 1];
      InputTokens(attempts[..|attempts| - 1]) + if a.status.RejectedCap? then 0 else a.input
  }

  function OutputTokens(attempts: seq<Attempt>): nat {
    if attempts == [] then 0
    else
      var a := attempts[|attempts| - 1];
      OutputTokens(attempts[..|attempts| - 1]) + if a.status.RejectedCap? then 0 else a.output
  }

  /** Why a guarded ledger refuses; spent says that the decision or tool allowance is used up. */
  function GuardReason(l: Ledger, c: Limits, now: int, spent: bool, body: nat): Option<Reason> {
    if AnyOutstanding(l) then Some(Unsettled)
    else if now >= c.deadline then Some(Deadline)
    else if Admitted(l.attempts) >= c.attempts then Some(AttemptCap)
    else if spent then Some(DecisionOrTool)
    else if InputTokens(l.attempts) + body + PADDING > c.input then Some(InputCap)
    else if OutputTokens(l.attempts) + l.maxOutput > c.output then Some(OutputCap)
    else None
  }

  /** The guard stops the ledger and lets the base reservation record the refusal. */
  function GuardedReserve(
    l: Ledger, c: Limits, now: int, spent: bool, request: int, body: nat, segment: string): Ledger
  {
    match GuardReason(l, c, now, spent, body)
    case None => Reserve(l, request, body, segment)
    case Some(reason) =>
      var r := Reserve(l.(capStopped := true), request, body, segment);
      r.(attempts := r.attempts[|l.attempts| := r.attempts[|l.attempts|].(detail := GuardRefusal(reason))])
  }

  // ---- runs -----------------------------------------------------------------------------

  datatype Event =
    | EvReserve(request: int, body: nat, segment: string)
    | EvGuarded(now: int, spent: bool, request: int, body: nat, segment: string)
    | EvSettle(id: int, outcome: Outcome, usage: Option<Usage>, detail: string)
    | EvForce(segment: string, detail: string)
    | EvReload(cap: real, pricing: Pricing, maxOutput: nat)

  predicate Enabled(e: Event) { e.EvReload? ==> ValidPricing(e.pricing) }

  function Next(c: Limits, l: Ledger, e: Event): Ledger {
    match e
    case EvReserve(request, body, segment) => Reserve(l, request, body, segment)
    case EvGuarded(now, spent, request, body, segment) => GuardedReserve(l, c, now, spent, request, body, segment)
    case EvSettle(id, outcome, usage, detail) => Settle(l, id, outcome, usage, detail)
    case EvForce(segment, detail) => Force(l, segment, detail, |l.attempts|)
    case EvReload(cap, pricing, maxOutput) => Reload(l, cap, pricing, maxOutput)
  }

  ghost predicate Reaches(c: Limits, l: Ledger, es: seq<Event>, t: Ledger)
    decreases |es|
  {
    if es == [] then l == t else Enabled(es[0]) && Reaches(c, Next(c, l, es[0]), es[1..], t)
  }
}
