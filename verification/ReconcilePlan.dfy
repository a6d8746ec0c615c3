/**
 Reconciling one attempt of unknown usage from its captured response: the evidence a plan is built
 from, the plan, and the journal that applies it. A plan binds the exact files it was built from, so
 a bound file stands for its digest and a plan stands for its own id.
 */
module ReconcilePlan {
  import opened Common
  import opened LedgerModel
  import opened Chunks
  import Sse = SseEvents
  import SseStream
  import SseCapture

  datatype Row = Row(
    id: int, segment: string, request: int, protocol: Protocol, status: Status, detail: string,
    httpStatus: Option<int>, reservedUsd: real, settledUsd: real, usage: Option<Usage>, reconciliation: Option<Plan>)

  datatype Books = Books(protocol: Protocol, committed: real, unknown: real, pricing: Pricing, rows: seq<Row>)

  datatype Metadata = Metadata(
    protocol: Protocol, segment: string, outcome: string, exitCode: Option<int>, namesThisLedger: bool,
    treeConfirmed: bool, model: string)

  datatype Summary = Summary(protocol: Protocol, rest: string)

  datatype UsageFile = UsageFile(protocol: Protocol, rows: seq<Row>)

  datatype Request = Request(
    model: string, stream: bool, hasMessages: bool, messagesIsList: bool, hasInput: bool, includeUsage: bool)

  /** The files one finished segment left behind; requests and responses by request number. */
  datatype Segment = Segment(
    metadata: Metadata, summary: Summary, usageFile: UsageFile, requests: map<int, Request>, responses: map<int, Bytes>)

  datatype Plan = Plan(
    segment: string, attemptId: int, request: int, protocol: Protocol,
    books: Books, metadata: Metadata, summary: Summary, usageFile: UsageFile, requestFile: Request, response: Bytes,
    usage: Usage, prior: real, settled: real)

  datatype Backup = Absent | Torn | Whole

  datatype ReceiptStatus = Prepared | Applied

  datatype Receipt = Receipt(status: ReceiptStatus, booksAfter: Option<Books>, recovered: bool)

  /** The four backups are the ledger and the segment's three receipts. */
  datatype Journal = Journal(plan: Option<Plan>, backups: seq<Backup>, receipt: Option<Receipt>)

  const EMPTY := Journal(None, [Absent, Absent, Absent, Absent], None)

  datatype Stage = Stage(books: Books, segments: map<string, Segment>, journals: map<Plan, Journal>)

  /** The strict usage of a cleanly completed capture. */
  type Scanner = (Protocol, Bytes) -> Option<Usage>

  const MAX_CAPTURE_BYTES := 256 * 1024 * 1024
  const MAX_EVENT_BYTES := 1024 * 1024

  function Capturing(p: Protocol, loads: Sse.Decoder): SseStream.Settings {
    SseStream.Settings(MAX_EVENT_BYTES, p, loads)
  }

  predicate Reports(strict: Sse.StrictUsage, u: Usage) {
    strict.Usage? && strict.input == u.input && strict.output == u.output && strict.cached == u.cached
  }

  /** A capture that ended in one clean terminal, with these counts as its strict usage. */
  ghost predicate CompleteCapture(p: Protocol, loads: Sse.Decoder, capture: Bytes, u: Usage) {
    var t := SseStream.WholeParse(Capturing(p, loads), capture);
    && |capture| <= MAX_CAPTURE_BYTES && Sse.CleanlyComplete(p, t)
    && Reports(Sse.ParseUsage(p, t.latest), u)
  }

  /** _scan_response: reads the capture in pieces and trusts only a complete one. */
  ghost function CaptureScanner(loads: Sse.Decoder): Scanner {
    (p: Protocol, capture: Bytes) =>
      var t := SseStream.WholeParse(Capturing(p, loads), capture);
      var u := Sse.ParseUsage(p, t.latest);
      if |capture| <= MAX_CAPTURE_BYTES && u.Usage? && Sse.CleanlyComplete(p, t)
      then Some(Usage(u.input, u.cached, u.output)) else None
  }

  // ---- building a plan ------------------------------------------------------------------

  function First(rows: seq<Row>, id: int): (r: Option<nat>)
    ensures r.Some? ==> r.value < |rows| && rows[r.value].id == id
    ensures r.Some? ==> forall j | 0 <= j < r.value :: rows[j].id != id
    ensures r.None? ==> forall j | 0 <= j < |rows| :: rows[j].id != id
  {
    if rows == [] then None
    else if rows[0].id == id then Some(0)
    else match First(rows[1..], id)
      case None => None
      case Some(i) => Some(i + 1)
  }

  /** _attempt: the one row with the id, if there is exactly one. */
  function TheRow(rows: seq<Row>, id: int): (r: Option<nat>)
    ensures r.Some? <==> id > 0 && exists i :: 0 <= i < |rows| && OnlyRow(rows, id, i)
    ensures r.Some? ==> r.value < |rows| && OnlyRow(rows, id, r.value)
  {
    var first := First(rows, id);
    if id <= 0 || first.None? then None
    else
      var second := First(rows[first.value + 1..], id);
      if second.None? then
        assert forall j | first.value < j < |rows| :: rows[j].id != id by {
          assert forall j | first.value < j < |rows| :: rows[j] == rows[first.value + 1..][j - first.value - 1];
        }
        assert OnlyRow(rows, id, first.value);
        first
      else
        assert rows[first.value + 1 + second.value].id == id;
        None
  }

  predicate OnlyRow(rows: seq<Row>, id: int, i: int)
    requires 0 <= i < |rows|
  {
    rows[i].id == id && forall j | 0 <= j < |rows| && j != i :: rows[j].id != id
  }

  predicate Reconcilable(b: Books, row: Row, segment: string) {
    && row.segment == segment && row.status.Unknown? && row.detail == "usage_missing"
    && (forall i | 0 <= i < |b.rows| :: !b.rows[i].status.Reserved?)
    && row.request > 0
    && row.httpStatus.Some? && 200 <= row.httpStatus.value < 300
    && row.protocol == b.protocol
  }

  predicate SameAttempt(a: Row, b: Row) {
    && a.id == b.id && a.segment == b.segment && a.request == b.request && a.protocol == b.protocol
    && a.status == b.status && a.detail == b.detail && a.httpStatus == b.httpStatus
    && a.reservedUsd == b.reservedUsd && a.settledUsd == b.settledUsd
  }

  predicate SegmentMatches(b: Books, s: Segment, segment: string, row: Row) {
    && s.metadata.protocol == b.protocol && s.summary.protocol == b.protocol && s.usageFile.protocol == b.protocol
    && s.metadata.segment == segment && s.metadata.outcome != "running" && s.metadata.exitCode.Some?
    && s.metadata.namesThisLedger && s.metadata.treeConfirmed
    && var original := TheRow(s.usageFile.rows, row.id);
       original.Some? && SameAttempt(s.usageFile.rows[original.value], row)
  }

  predicate RequestMatches(p: Protocol, r: Request, model: string) {
    && r.model == model && r.stream
    && match p
       case Chat => r.messagesIsList && !r.hasInput && r.includeUsage
       case Responses => r.hasInput && !r.hasMessages
  }

  predicate AmountsAgree(b: Books, row: Row, cost: real) {
    && ValidPricing(b.pricing)
    && row.settledUsd == row.reservedUsd && row.settledUsd > 0.0 && row.reservedUsd >= 0.0
    && cost <= row.settledUsd
    && b.unknown >= row.settledUsd && b.committed >= 0.0
  }

  /** build_plan; None is any of its refusals. */
  function BuildPlan(scan: Scanner, d: Stage, segment: string, attemptId: int): Option<Plan> {
    var at := TheRow(d.books.rows, attemptId);
    if at.None? || segment !in d.segments then None
    else
      var row, s := d.books.rows[at.value], d.segments[segment];
      if !Reconcilable(d.books, row, segment) || !SegmentMatches(d.books, s, segment, row) then None
      else if row.request !in s.requests || row.request !in s.responses then None
      else if !RequestMatches(d.books.protocol, s.requests[row.request], s.metadata.model) then None
      else
        var usage := scan(d.books.protocol, s.responses[row.request]);
        if usage.None? then None
        else
          var cost := Cost(d.books.pricing, usage.value);
          if !AmountsAgree(d.books, row, cost) then None
          else Some(Plan(segment, attemptId, row.request, d.books.protocol, d.books, s.metadata, s.summary, s.usageFile,
                         s.requests[row.request], s.responses[row.request], usage.value, row.settledUsd, cost))
  }

  /** A plan over the capture's own results settles exactly the usage of a complete capture: however
      its response is read in pieces, the capture ends complete and reports that usage. */
  lemma PlanSettlesCompleteCapture(loads: Sse.Decoder, d: Stage, segment: string, attemptId: int, p: Plan,
                                   pieces: seq<Bytes>)
    requires BuildPlan(CaptureScanner(loads), d, segment, attemptId) == Some(p) && Concat(pieces) == p.response
    ensures CompleteCapture(p.protocol, loads, p.response, p.usage)
    ensures p.usage.cached <= p.usage.input && p.settled == Cost(d.books.pricing, p.usage)
    ensures var g := Capturing(p.protocol, loads);
      var t := SseStream.Finish(g, SseCapture.TakeChunks(g, SseStream.Fresh(), pieces));
      Sse.CleanlyComplete(p.protocol, t) && Reports(Sse.ParseUsage(p.protocol, t.latest), p.usage)
  {
    SseCapture.AnyChunkingIsWhole(Capturing(p.protocol, loads), pieces);
  }

  /** No plan is built from a capture that is not complete, whatever else holds. */
  lemma IncompleteCaptureRefused(loads: Sse.Decoder, d: Stage, segment: string, attemptId: int, i: nat)
    requires TheRow(d.books.rows, attemptId) == Some(i) && segment in d.segments
    requires var request := d.books.rows[i].request; var responses := d.segments[segment].responses;
      request in responses ==> forall u :: !CompleteCapture(d.books.protocol, loads, responses[request], u)
    ensures BuildPlan(CaptureScanner(loads), d, segment, attemptId).None?
  {
    var request, responses := d.books.rows[i].request, d.segments[segment].responses;
    if request in responses {
      var usage := CaptureScanner(loads)(d.books.protocol, responses[request]);
      if usage.Some? {
        assert CompleteCapture(d.books.protocol, loads, responses[request], usage.value);
      }
    }
  }

  // ---- applying a plan ------------------------------------------------------------------

  function Reconciled(b: Books, p: Plan, i: nat): Books
    requires i < |b.rows|
  {
    b.(rows := b.rows[i := b.rows[i].(status := Committed, settledUsd := p.settled,
                                      detail := "usage_reconciled_from_complete_capture", usage := Some(p.usage),
                                      reconciliation := Some(p))],
       unknown := b.unknown - b.rows[i].settledUsd, committed := b.committed + p.settled)
  }

  /** The durable writes of apply_plan. A backup is created empty before it is filled. */
  datatype Write =
    | MakeJournal | PutPlan | OpenBackup(k: nat) | FillBackup(k: nat) | PutPrepared | PutBooks
    | PutApplied(recovered: bool)

  function JournalOf(d: Stage, p: Plan): Journal { if p in d.journals then d.journals[p] else EMPTY }

  function WithJournal(d: Stage, p: Plan, j: Journal): Stage { d.(journals := d.journals[p := j]) }

  function SetBackup(j: Journal, k: nat, b: Backup): Journal {
    if k < |j.backups| then j.(backups := j.backups[k := b]) else j
  }

  function Perform(d: Stage, p: Plan, w: Write): Stage {
    var j := JournalOf(d, p);
    match w
    case MakeJournal => WithJournal(d, p, EMPTY)
    case PutPlan => WithJournal(d, p, j.(plan := Some(p)))
    case OpenBackup(k) => WithJournal(d, p, SetBackup(j, k, Torn))
    case FillBackup(k) => WithJournal(d, p, SetBackup(j, k, Whole))
    case PutPrepared => WithJournal(d, p, j.(receipt := Some(Receipt(Prepared, None, false))))
    case PutBooks =>
      var at := TheRow(d.books.rows, p.attemptId);
      if at.None? then d else d.(books := Reconciled(d.books, p, at.value))
    case PutApplied(recovered) =>
      WithJournal(d, p, j.(receipt := Some(Receipt(Applied, Some(d.books), recovered))))
  }

  function PerformAll(d: Stage, p: Plan, ws: seq<Write>): Stage {
    if ws == [] then d else Perform(PerformAll(d, p, ws[..|ws| - 1]), p, ws[|ws| - 1])
  }

  const PREPARE := [MakeJournal, PutPlan,
                    OpenBackup(0), FillBackup(0), OpenBackup(1), FillBackup(1),
                    OpenBackup(2), FillBackup(2), OpenBackup(3), FillBackup(3), PutPrepared]

  const FINISH := [PutBooks, PutApplied(false)]

  predicate AllWhole(j: Journal) { forall k | 0 <= k < |j.backups| :: j.backups[k].Whole? }

  /** The journal names this plan, keeps its backups, and has the receipt. */
  predicate Intact(d: Stage, p: Plan) {
    p in d.journals && d.journals[p].plan == Some(p) && AllWhole(d.journals[p]) && d.journals[p].receipt.Some?
  }

  /** The writes an uninterrupted apply_plan makes; None when it refuses. */
  function Script(scan: Scanner, d: Stage, p: Plan): Option<seq<Write>> {
    var at := TheRow(d.books.rows, p.attemptId);
    if at.None? then None
    else
      var row := d.books.rows[at.value];
      if row.reconciliation == Some(p) then
        if !Intact(d, p) || !row.status.Committed? || row.settledUsd != p.settled then None
        else if d.journals[p].receipt.value.status.Prepared? then Some([PutApplied(true)])
        else Some([])
      else if BuildPlan(scan, d, p.segment, p.attemptId) != Some(p) then None
      else if p !in d.journals then Some(PREPARE + FINISH)
      else if Intact(d, p) && d.journals[p].receipt.value.status.Prepared? then Some(FINISH)
      else None
  }

  datatype Outcome = Refused | Crashed | Done

  function Min(a: nat, b: nat): nat { if a <= b then a else b }

  /** One run that dies after fuel writes, if it gets that far. */
  function Run(scan: Scanner, d: Stage, p: Plan, fuel: nat): (Stage, Outcome) {
    match Script(scan, d, p)
    case None => (d, Refused)
    case Some(ws) => (PerformAll(d, p, ws[..Min(fuel, |ws|)]), if fuel < |ws| then Crashed else Done)
  }

  /** Runs of any plans crashing anywhere, between changes of the evidence. */
  datatype Event = Apply(plan: Plan, fuel: nat) | Evidence(name: string, segment: Segment)

  function Next(scan: Scanner, d: Stage, e: Event): Stage {
    match e
    case Apply(plan, fuel) => Run(scan, d, plan, fuel).0
    case Evidence(name, segment) => d.(segments := d.segments[name := segment])
  }

  function After(scan: Scanner, d: Stage, es: seq<Event>): Stage
    decreases |es|
  {
    if es == [] then d else After(scan, Next(scan, d, es[0]), es[1..])
  }
}
