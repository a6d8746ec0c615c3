/** What reconciliation keeps over any sequence of runs that crash between any two writes. */
module ReconcileRuns {
  import opened Common
  import L = LedgerModel
  import opened RealSums
  import opened ReconcilePlan

  // ---- where a first run is after k writes ----------------------------------------------

  function BackupAfter(i: nat, k: nat): Backup {
    if k >= 4 + 2 * i then Whole else if k >= 3 + 2 * i then Torn else Absent
  }

  function JournalAfter(p: Plan, k: nat): Journal {
    Journal(if k >= 2 then Some(p) else None,
            [BackupAfter(0, k), BackupAfter(1, k), BackupAfter(2, k), BackupAfter(3, k)],
            if k >= 11 then Some(Receipt(Prepared, None, false)) else None)
  }

  const PREPARED_AT := 11

  lemma {:induction false} PrefixStep(d: Stage, p: Plan, ws: seq<Write>, k: nat)
    requires 0 < k <= |ws|
    ensures PerformAll(d, p, ws[..k]) == Perform(PerformAll(d, p, ws[..k - 1]), p, ws[k - 1])
  {
    assert ws[..k][..k - 1] == ws[..k - 1];
    hide Perform;
  }

  lemma {:induction false} NextJournal(d: Stage, p: Plan, k: nat)
    requires 0 < k < PREPARED_AT
    ensures Perform(WithJournal(d, p, JournalAfter(p, k)), p, PREPARE[k]) == WithJournal(d, p, JournalAfter(p, k + 1))
  {
    var e := WithJournal(d, p, JournalAfter(p, k));
    assert JournalOf(e, p) == JournalAfter(p, k);
    if k == 1 {
      assert PREPARE[k] == PutPlan;
    } else if k == 10 {
      assert PREPARE[k] == PutPrepared;
    } else {
      var i := (k - 2) / 2;
      BackupStep(p, i);
      assert PREPARE[k] == if k % 2 == 0 then OpenBackup(i) else FillBackup(i);
      hide JournalAfter, SetBackup;
    }
    assert forall j :: WithJournal(e, p, j).journals == WithJournal(d, p, j).journals;
  }

  lemma {:induction false} BackupStep(p: Plan, i: nat)
    requires i < 4
    ensures SetBackup(JournalAfter(p, 2 + 2 * i), i, Torn) == JournalAfter(p, 3 + 2 * i)
    ensures SetBackup(JournalAfter(p, 3 + 2 * i), i, Whole) == JournalAfter(p, 4 + 2 * i)
  {
  }

  lemma {:induction false} PrepareReaches(d: Stage, p: Plan, k: nat)
    requires 0 < k <= PREPARED_AT
    ensures PerformAll(d, p, PREPARE[..k]) == WithJournal(d, p, JournalAfter(p, k))
  {
    PrefixStep(d, p, PREPARE, k);
    if k == 1 {
      assert PREPARE[..0] == [];
    } else {
      PrepareReaches(d, p, k - 1);
      NextJournal(d, p, k - 1);
    }
  }

  lemma {:induction false} FreshPrefix(d: Stage, p: Plan, k: nat)
    requires 0 < k <= PREPARED_AT
    ensures PerformAll(d, p, (PREPARE + FINISH)[..k]) == WithJournal(d, p, JournalAfter(p, k))
  {
    assert (PREPARE + FINISH)[..k] == PREPARE[..k];
    PrepareReaches(d, p, k);
  }

  /** The two closing writes, from a stage that has the prepared journal. */
  lemma {:induction false} FinishReaches(e: Stage, p: Plan, i: nat)
    requires TheRow(e.books.rows, p.attemptId) == Some(i)
    ensures PerformAll(e, p, FINISH[..1]) == e.(books := Reconciled(e.books, p, i))
    ensures var b := Reconciled(e.books, p, i);
      PerformAll(e, p, FINISH) == WithJournal(e.(books := b), p,
        JournalOf(e, p).(receipt := Some(Receipt(Applied, Some(b), false))))
  {
  }

  lemma {:induction false} PerformConcat(d: Stage, p: Plan, a: seq<Write>, b: seq<Write>)
    ensures PerformAll(d, p, a + b) == PerformAll(PerformAll(d, p, a), p, b)
    decreases |b|
  {
    if b == [] {
      assert a + b == a;
    } else {
      PerformConcat(d, p, a, b[..|b| - 1]);
      assert (a + b)[..|a + b| - 1] == a + b[..|b| - 1];
      hide Perform;
    }
  }

  lemma {:induction false} FreshFinish(d: Stage, p: Plan, i: nat)
    requires TheRow(d.books.rows, p.attemptId) == Some(i)
    ensures var e, b := WithJournal(d, p, JournalAfter(p, PREPARED_AT)), Reconciled(d.books, p, i);
      && PerformAll(d, p, (PREPARE + FINISH)[..12]) == e.(books := b)
      && PerformAll(d, p, PREPARE + FINISH)
         == WithJournal(e.(books := b), p,
              JournalAfter(p, PREPARED_AT).(receipt := Some(Receipt(Applied, Some(b), false))))
  {
    var e := WithJournal(d, p, JournalAfter(p, PREPARED_AT));
    assert PREPARE[..11] == PREPARE;
    PrepareReaches(d, p, PREPARED_AT);
    assert (PREPARE + FINISH)[..12] == PREPARE + FINISH[..1];
    PerformConcat(d, p, PREPARE, FINISH[..1]);
    PerformConcat(d, p, PREPARE, FINISH);
    FinishReaches(e, p, i);
    hide Perform, PerformAll, Reconciled, TheRow, JournalAfter;
  }

  /** The stage after the first k writes of a first run. */
  function StageAfter(d: Stage, p: Plan, i: nat, k: nat): Stage
    requires i < |d.books.rows|
  {
    var b := Reconciled(d.books, p, i);
    if k == 0 then d
    else if k <= PREPARED_AT then WithJournal(d.(books := d.books), p, JournalAfter(p, k))
    else if k == 12 then WithJournal(d.(books := b), p, JournalAfter(p, PREPARED_AT))
    else WithJournal(d.(books := b), p,
         JournalAfter(p, PREPARED_AT).(receipt := Some(Receipt(Applied, Some(b), false))))
  }

  lemma {:induction false} StageReached(d: Stage, p: Plan, i: nat, k: nat)
    requires TheRow(d.books.rows, p.attemptId) == Some(i) && k <= 13
    ensures PerformAll(d, p, (PREPARE + FINISH)[..k]) == StageAfter(d, p, i, k)
  {
    if k == 0 {
      assert (PREPARE + FINISH)[..0] == [];
    } else if k <= PREPARED_AT {
      FreshPrefix(d, p, k);
      hide PerformAll, JournalAfter, Reconciled;
    } else {
      FreshFinish(d, p, i);
      assert k == 13 ==> (PREPARE + FINISH)[..k] == PREPARE + FINISH;
      hide PerformAll, JournalAfter, Reconciled, TheRow;
      var e := WithJournal(d, p, JournalAfter(p, PREPARED_AT));
      var b := Reconciled(d.books, p, i);
      assert forall j :: WithJournal(e.(books := b), p, j).journals == WithJournal(d.(books := b), p, j).journals;
    }
  }

  // ---- one run --------------------------------------------------------------------------

  /** The target row of a plan that builds. */
  lemma {:induction false} PlanBinds(scan: Scanner, d: Stage, p: Plan)
    requires BuildPlan(scan, d, p.segment, p.attemptId) == Some(p)
    ensures p.books == d.books && TheRow(d.books.rows, p.attemptId).Some?
    ensures var row := d.books.rows[TheRow(d.books.rows, p.attemptId).value];
      && row.status.Unknown? && row.id == p.attemptId
      && p.prior == row.settledUsd && 0.0 <= p.settled <= p.prior && p.prior > 0.0
  {
    var at := TheRow(d.books.rows, p.attemptId);
    hide TheRow, SegmentMatches, RequestMatches;
    var row := d.books.rows[at.value];
    assert AmountsAgree(d.books, row, p.settled);
    hide L.Cost;
  }

  /** A run leaves the evidence and the other journals alone. */
  predicate OnlyOwnJournal(d: Stage, t: Stage, p: Plan) {
    && t.segments == d.segments
    && (forall q | q in d.journals && q != p :: q in t.journals && t.journals[q] == d.journals[q])
    && (forall q | q in t.journals && q != p :: q in d.journals)
  }

  predicate BooksKeptOrReconciled(scan: Scanner, d: Stage, t: Stage, p: Plan) {
    || t.books == d.books
    || (var at := TheRow(d.books.rows, p.attemptId);
        at.Some? && BuildPlan(scan, d, p.segment, p.attemptId) == Some(p)
          && t.books == Reconciled(d.books, p, at.value))
  }

  /** Everything one run can do to the stage. */
  lemma {:induction false} RunDoes(scan: Scanner, d: Stage, p: Plan, fuel: nat)
    ensures OnlyOwnJournal(d, Run(scan, d, p, fuel).0, p)
    ensures BooksKeptOrReconciled(scan, d, Run(scan, d, p, fuel).0, p)
  {
    var ws := Script(scan, d, p);
    if ws.Some? {
      ScriptForms(scan, d, p);
      hide Script, TheRow, BuildPlan, OnlyOwnJournal, BooksKeptOrReconciled;
      var n := Min(fuel, |ws.value|);
      if ws.value == PREPARE + FINISH {
        FreshRunDoes(scan, d, p, n);
      } else if ws.value == FINISH {
        FinishRunDoes(scan, d, p, n);
      } else {
        RedoDoes(scan, d, p, ws.value[..n]);
      }
    } else {
      hide Script;
    }
  }

  lemma {:induction false} FreshRunDoes(scan: Scanner, d: Stage, p: Plan, n: nat)
    requires n <= 13 && BuildPlan(scan, d, p.segment, p.attemptId) == Some(p) && TheRow(d.books.rows, p.attemptId).Some?
    ensures var t := PerformAll(d, p, (PREPARE + FINISH)[..n]);
      OnlyOwnJournal(d, t, p) && BooksKeptOrReconciled(scan, d, t, p)
  {
    var i := TheRow(d.books.rows, p.attemptId).value;
    StageReached(d, p, i, n);
    var e := JournalAfter(p, PREPARED_AT);
    var b := Reconciled(d.books, p, i);
    hide BuildPlan, TheRow, Reconciled, PerformAll, JournalAfter, WithJournal;
    if n == 0 {
    } else if n <= PREPARED_AT {
    } else if n == 12 {
    }
  }

  lemma {:induction false} FinishRunDoes(scan: Scanner, d: Stage, p: Plan, n: nat)
    requires n <= 2 && BuildPlan(scan, d, p.segment, p.attemptId) == Some(p) && TheRow(d.books.rows, p.attemptId).Some?
    ensures var t := PerformAll(d, p, FINISH[..n]);
      OnlyOwnJournal(d, t, p) && BooksKeptOrReconciled(scan, d, t, p)
  {
    hide BuildPlan, TheRow, Reconciled;
    FinishReaches(d, p, TheRow(d.books.rows, p.attemptId).value);
    assert FINISH[..2] == FINISH && FINISH[..0] == [];
    hide Perform;
  }

  lemma {:induction false} RedoDoes(scan: Scanner, d: Stage, p: Plan, ws: seq<Write>)
    requires ws == [] || ws == [PutApplied(true)]
    ensures var t := PerformAll(d, p, ws); OnlyOwnJournal(d, t, p) && BooksKeptOrReconciled(scan, d, t, p)
  {
  }

  lemma {:induction false} ScriptForms(scan: Scanner, d: Stage, p: Plan)
    requires Script(scan, d, p).Some?
    ensures TheRow(d.books.rows, p.attemptId).Some?
    ensures var ws := Script(scan, d, p).value;
      || ws == [] || ws == [PutApplied(true)]
      || ((ws == FINISH || ws == PREPARE + FINISH) && BuildPlan(scan, d, p.segment, p.attemptId) == Some(p))
  {
  }

  // ---- money ----------------------------------------------------------------------------

  const UNKNOWN: Row -> real := (r: Row) => if r.status.Unknown? then r.settledUsd else 0.0
  const COMMITTED: Row -> real := (r: Row) => if r.status.Committed? then r.settledUsd else 0.0

  /** A row stays as it is, or moves from unknown to committed at no higher amount. */
  predicate RowMoves(a: Row, b: Row) {
    || a == b
    || (&& a.status.Unknown? && b.reconciliation.Some? && 0.0 <= b.settledUsd <= a.settledUsd
        && b == a.(status := L.Committed, settledUsd := b.settledUsd, detail := b.detail, usage := b.usage,
                   reconciliation := b.reconciliation))
  }

  ghost predicate BooksMove(a: Books, b: Books) {
    && |a.rows| == |b.rows| && (forall i | 0 <= i < |a.rows| :: RowMoves(a.rows[i], b.rows[i]))
    && b.unknown - Total(b.rows, UNKNOWN) == a.unknown - Total(a.rows, UNKNOWN)
    && b.committed - Total(b.rows, COMMITTED) == a.committed - Total(a.rows, COMMITTED)
    && b.unknown + b.committed <= a.unknown + a.committed
  }

  lemma {:induction false} ReconciledMoves(b: Books, p: Plan, i: nat)
    requires i < |b.rows| && b.rows[i].status.Unknown? && 0.0 <= p.settled <= b.rows[i].settledUsd
    ensures BooksMove(b, Reconciled(b, p, i))
  {
    var r := Reconciled(b, p, i);
    TotalUpdate(b.rows, i, r.rows[i], UNKNOWN);
    TotalUpdate(b.rows, i, r.rows[i], COMMITTED);
  }

  lemma {:induction false} StepMoves(scan: Scanner, d: Stage, e: Event)
    ensures BooksMove(d.books, Next(scan, d, e).books)
  {
    if e.Apply? {
      RunDoes(scan, d, e.plan, e.fuel);
      if Next(scan, d, e).books != d.books {
        PlanBinds(scan, d, e.plan);
        ReconciledMoves(d.books, e.plan, TheRow(d.books.rows, e.plan.attemptId).value);
      }
      hide Run, BuildPlan, Reconciled, TheRow;
    }
  }

  /** Over every sequence of crashing runs, each attempt moves from unknown to committed at most once,
      the unknown total falls by exactly what those attempts held, the committed total rises by
      exactly what they settled at, and together they never rise. */
  lemma {:induction false} MovesAtMostOnce(scan: Scanner, d: Stage, es: seq<Event>)
    ensures BooksMove(d.books, After(scan, d, es).books)
    decreases |es|
  {
    if es != [] {
      var next := Next(scan, d, es[0]);
      StepMoves(scan, d, es[0]);
      MovesAtMostOnce(scan, next, es[1..]);
      hide Next;
    }
  }

  /** A reconciled attempt is never touched again, whichever plans follow. */
  lemma {:induction false} SettledRowsStay(scan: Scanner, d: Stage, es: seq<Event>, i: nat)
    requires i < |d.books.rows| && !d.books.rows[i].status.Unknown?
    ensures i < |After(scan, d, es).books.rows| && After(scan, d, es).books.rows[i] == d.books.rows[i]
  {
    MovesAtMostOnce(scan, d, es);
    hide After;
    assert RowMoves(d.books.rows[i], After(scan, d, es).books.rows[i]);
  }

  // ---- recovery -------------------------------------------------------------------------

  lemma {:induction false} PlanIgnoresJournals(scan: Scanner, d: Stage, e: Stage, segment: string, id: int)
    requires e.books == d.books && e.segments == d.segments
    ensures BuildPlan(scan, e, segment, id) == BuildPlan(scan, d, segment, id)
  {
  }

  lemma {:induction false} ReconciledRow(b: Books, p: Plan, i: nat)
    requires TheRow(b.rows, p.attemptId) == Some(i)
    ensures TheRow(Reconciled(b, p, i).rows, p.attemptId) == Some(i)
  {
    var rows := Reconciled(b, p, i).rows;
    assert OnlyRow(rows, p.attemptId, i);
  }

  lemma {:induction false} JournalIntact(d: Stage, p: Plan)
    ensures Intact(WithJournal(d, p, JournalAfter(p, PREPARED_AT)), p)
  {
  }

  lemma {:induction false} PlanBindsScript(scan: Scanner, d: Stage, p: Plan)
    requires Script(scan, d, p) == Some(PREPARE + FINISH)
    ensures BuildPlan(scan, d, p.segment, p.attemptId) == Some(p) && p !in d.journals
    ensures TheRow(d.books.rows, p.attemptId).Some?
    ensures d.books.rows[TheRow(d.books.rows, p.attemptId).value].reconciliation != Some(p)
  {
  }

  lemma {:induction false} GapRefuses(scan: Scanner, d: Stage, p: Plan, k: nat)
    requires 0 < k < PREPARED_AT && TheRow(d.books.rows, p.attemptId).Some?
    requires d.books.rows[TheRow(d.books.rows, p.attemptId).value].reconciliation != Some(p)
    ensures Script(scan, WithJournal(d, p, JournalAfter(p, k)), p).None?
  {
  }

  lemma {:induction false} PreparedFinishes(scan: Scanner, d: Stage, p: Plan, i: nat)
    requires BuildPlan(scan, d, p.segment, p.attemptId) == Some(p) && TheRow(d.books.rows, p.attemptId) == Some(i)
    requires d.books.rows[i].reconciliation != Some(p)
    ensures var e := WithJournal(d, p, JournalAfter(p, PREPARED_AT));
      && Script(scan, e, p) == Some(FINISH)
      && var b := Reconciled(d.books, p, i);
         PerformAll(e, p, FINISH)
           == WithJournal(e.(books := b), p,
                JournalAfter(p, PREPARED_AT).(receipt := Some(Receipt(Applied, Some(b), false))))
    ensures FINISH[..2] == FINISH
  {
    var e := WithJournal(d, p, JournalAfter(p, PREPARED_AT));
    PlanIgnoresJournals(scan, d, e, p.segment, p.attemptId);
    JournalIntact(d, p);
    FinishReaches(e, p, i);
    hide BuildPlan, TheRow, Reconciled, PerformAll;
  }

  /** Past the ledger write the rerun only completes the receipt. */
  lemma {:induction false} AfterTheLedger(scan: Scanner, d: Stage, p: Plan, i: nat, k: nat)
    requires TheRow(d.books.rows, p.attemptId) == Some(i) && 12 <= k <= 13
    requires TheRow(Reconciled(d.books, p, i).rows, p.attemptId) == Some(i)
    ensures var b := Reconciled(d.books, p, i);
      var e := WithJournal(d.(books := b), p, if k == 12 then JournalAfter(p, PREPARED_AT)
                             else JournalAfter(p, PREPARED_AT).(receipt := Some(Receipt(Applied, Some(b), false))));
      && Script(scan, e, p) == Some(if k == 12 then [PutApplied(true)] else [])
      && PerformAll(e, p, if k == 12 then [PutApplied(true)] else [])
         == WithJournal(e, p, JournalOf(e, p).(receipt := Some(Receipt(Applied, Some(b), k == 12))))
      && JournalOf(e, p).(receipt := None) == JournalAfter(p, PREPARED_AT).(receipt := None)
    ensures [PutApplied(true)][..1] == [PutApplied(true)]
  {
    var b := Reconciled(d.books, p, i);
    var e := WithJournal(d.(books := b), p, if k == 12 then JournalAfter(p, PREPARED_AT)
                           else JournalAfter(p, PREPARED_AT).(receipt := Some(Receipt(Applied, Some(b), false))));
    hide BuildPlan, TheRow;
    if k == 12 {
      var ws := [PutApplied(true)];
      assert ws[..0] == [] && ws[0] == PutApplied(true);
      assert PerformAll(e, p, ws) == Perform(PerformAll(e, p, []), p, PutApplied(true));
    } else {
      assert WithJournal(e, p, JournalOf(e, p)).journals == e.journals;
    }
  }
}
