/** The journals over any sequence of crashing runs: what a receipt says about the ledger, replays, and
    the gap that no rerun leaves. */
module ReconcileJournal {
  import opened Common
  import L = LedgerModel
  import opened ReconcilePlan
  import opened ReconcileRuns

  predicate RowRecords(row: Row, p: Plan) {
    row.status.Committed? && row.settledUsd == p.settled && row.id == p.attemptId
  }

  ghost predicate HasRowBy(b: Books, p: Plan) {
    exists i :: 0 <= i < |b.rows| && b.rows[i].reconciliation == Some(p)
  }

  predicate IsApplied(j: Journal) { j.receipt.Some? && j.receipt.value.status.Applied? }

  /** Reconciled rows record their plan and have an intact journal; receipts come with the whole journal;
      and only a plan whose row is in the ledger has an applied receipt. */
  ghost predicate Inv(d: Stage) {
    && (forall i | 0 <= i < |d.books.rows| && d.books.rows[i].reconciliation.Some? ::
          var p := d.books.rows[i].reconciliation.value; RowRecords(d.books.rows[i], p) && Intact(d, p))
    && (forall p | p in d.journals && d.journals[p].receipt.Some? :: Intact(d, p))
    && (forall p | p in d.journals && IsApplied(d.journals[p]) :: HasRowBy(d.books, p))
  }

  /** Before any reconciliation. */
  ghost predicate Untouched(d: Stage) {
    d.journals == map[] && forall i | 0 <= i < |d.books.rows| :: d.books.rows[i].reconciliation.None?
  }

  /** A write to p's own journal that leaves it intact or without receipt, the ledger as it was. */
  lemma {:induction false} JournalWriteKeeps(d: Stage, p: Plan, j: Journal)
    requires Inv(d)
    requires if j.receipt.Some? then j.plan == Some(p) && AllWhole(j) else !HasRowBy(d.books, p)
    requires IsApplied(j) ==> HasRowBy(d.books, p)
    ensures Inv(WithJournal(d, p, j))
  {
  }

  lemma {:induction false} BooksWriteKeeps(d: Stage, p: Plan, i: nat)
    requires Inv(d) && Intact(d, p) && !IsApplied(d.journals[p])
    requires i < |d.books.rows| && d.books.rows[i].status.Unknown? && d.books.rows[i].id == p.attemptId
    ensures Inv(d.(books := Reconciled(d.books, p, i))) && HasRowBy(Reconciled(d.books, p, i), p)
  {
    hide AllWhole;
    var t := d.(books := Reconciled(d.books, p, i));
    assert t.books.rows[i].reconciliation == Some(p);
    forall q | q in t.journals && IsApplied(t.journals[q]) ensures HasRowBy(t.books, q) {
      var j :| 0 <= j < |d.books.rows| && d.books.rows[j].reconciliation == Some(q);
      assert t.books.rows[j].reconciliation == Some(q);
    }
  }

  lemma {:induction false} FreshStageKeeps(scan: Scanner, d: Stage, p: Plan, i: nat, k: nat)
    requires Inv(d) && Script(scan, d, p) == Some(PREPARE + FINISH) && TheRow(d.books.rows, p.attemptId) == Some(i)
    ensures Inv(StageAfter(d, p, i, k))
  {
    PlanBindsScript(scan, d, p);
    PlanBinds(scan, d, p);
    var j := JournalAfter(p, PREPARED_AT);
    var b := Reconciled(d.books, p, i);
    hide Script, BuildPlan, TheRow, Inv, JournalAfter, HasRowBy, AllWhole, Reconciled;
    assert d.(books := d.books) == d;
    if 0 < k < PREPARED_AT {
      JournalWriteKeeps(d, p, JournalAfter(p, k));
    } else if k >= PREPARED_AT {
      JournalWriteKeeps(d, p, j);
      if k > PREPARED_AT { ClosingKeeps(d, p, i, j); }
    }
  }

  /** The closing writes, once the prepared journal is there. */
  lemma {:induction false} ClosingKeeps(d: Stage, p: Plan, i: nat, j: Journal)
    requires Inv(WithJournal(d, p, j)) && j.plan == Some(p) && AllWhole(j) && j.receipt.Some? && !IsApplied(j)
    requires i < |d.books.rows| && d.books.rows[i].status.Unknown? && d.books.rows[i].id == p.attemptId
    ensures var b := Reconciled(d.books, p, i);
      && Inv(WithJournal(d.(books := b), p, j))
      && Inv(WithJournal(d.(books := b), p, j.(receipt := Some(Receipt(Applied, Some(b), false)))))
  {
    var e, b := WithJournal(d, p, j), Reconciled(d.books, p, i);
    BooksWriteKeeps(e, p, i);
    assert e.(books := b) == WithJournal(d.(books := b), p, j);
    var done := j.(receipt := Some(Receipt(Applied, Some(b), false)));
    AllWholeSame(j, done);
    hide Inv, AllWhole, HasRowBy, Reconciled;
    JournalWriteKeeps(e.(books := b), p, done);
    assert WithJournal(e.(books := b), p, done) == WithJournal(d.(books := b), p, done);
  }

  lemma {:induction false} AllWholeSame(a: Journal, b: Journal)
    requires AllWhole(a) && a.backups == b.backups
    ensures AllWhole(b)
  {
  }

  lemma {:induction false} FinishKeeps(scan: Scanner, d: Stage, p: Plan, n: nat)
    requires Inv(d) && Script(scan, d, p) == Some(FINISH) && n <= 2
    requires BuildPlan(scan, d, p.segment, p.attemptId) == Some(p)
    ensures Inv(PerformAll(d, p, FINISH[..n]))
  {
    PlanBinds(scan, d, p);
    FinishIsPrepared(scan, d, p);
    var i := TheRow(d.books.rows, p.attemptId).value;
    FinishReaches(d, p, i);
    assert FINISH[..2] == FINISH && FINISH[..0] == [];
    var b := Reconciled(d.books, p, i);
    var done := JournalOf(d, p).(receipt := Some(Receipt(Applied, Some(b), false)));
    AllWholeSame(d.journals[p], done);
    hide Script, BuildPlan, TheRow, Inv, HasRowBy, AllWhole, Perform, Reconciled;
    if n > 0 {
      BooksWriteKeeps(d, p, i);
      JournalWriteKeeps(d.(books := b), p, done);
    }
  }

  lemma {:induction false} FinishIsPrepared(scan: Scanner, d: Stage, p: Plan)
    requires Script(scan, d, p) == Some(FINISH)
    ensures Intact(d, p) && d.journals[p].receipt.value.status.Prepared?
  {
  }

  lemma {:induction false} RedoKeeps(scan: Scanner, d: Stage, p: Plan, ws: seq<Write>)
    requires Inv(d) && (ws == [] || (ws == [PutApplied(true)] && Intact(d, p) && HasRowBy(d.books, p)))
    ensures Inv(PerformAll(d, p, ws))
  {
  }

  lemma {:induction false} RedoHasRow(scan: Scanner, d: Stage, p: Plan)
    requires Script(scan, d, p) == Some([PutApplied(true)])
    ensures Intact(d, p) && HasRowBy(d.books, p)
  {
  }

  lemma {:induction false} StepKeeps(scan: Scanner, d: Stage, e: Event)
    requires Inv(d)
    ensures Inv(Next(scan, d, e))
  {
    if e.Apply? {
      var p := e.plan;
      var ws := Script(scan, d, p);
      if ws.Some? {
        ScriptForms(scan, d, p);
        hide Script, TheRow, BuildPlan, Inv, PerformAll, HasRowBy, Intact;
        var n := Min(e.fuel, |ws.value|);
        if ws.value == PREPARE + FINISH {
          var i := TheRow(d.books.rows, p.attemptId).value;
          StageReached(d, p, i, n);
          FreshStageKeeps(scan, d, p, i, n);
        } else if ws.value == FINISH {
          FinishKeeps(scan, d, p, n);
        } else if ws.value == [PutApplied(true)] {
          RedoHasRow(scan, d, p);
          assert ws.value[..n] == [] || ws.value[..n] == [PutApplied(true)];
          RedoKeeps(scan, d, p, ws.value[..n]);
        } else {
          assert ws.value[..n] == [];
          RedoKeeps(scan, d, p, []);
        }
      }
    } else {
      EvidenceKeeps(d, e.name, e.segment);
    }
  }

  lemma {:induction false} EvidenceKeeps(d: Stage, name: string, s: Segment)
    requires Inv(d)
    ensures Inv(d.(segments := d.segments[name := s]))
  {
  }

  lemma {:induction false} RunsKeep(scan: Scanner, d: Stage, es: seq<Event>)
    requires Inv(d)
    ensures Inv(After(scan, d, es))
    decreases |es|
  {
    hide Inv;
    if es != [] {
      StepKeeps(scan, d, es[0]);
      hide Next;
      RunsKeep(scan, Next(scan, d, es[0]), es[1..]);
    }
  }

  /** From an untouched campaign on, a plan whose row is in the ledger replays as done, changing no
      money, and an applied receipt always has its row. */
  lemma {:induction false} ReplayIsDone(scan: Scanner, d: Stage, es: seq<Event>, p: Plan, fuel: nat)
    requires Untouched(d) && fuel > 0
    ensures var t := After(scan, d, es);
      && (p in t.journals && IsApplied(t.journals[p]) ==> HasRowBy(t.books, p))
      && (TheRow(t.books.rows, p.attemptId).Some? && HasRowBy(t.books, p) ==>
            var (u, outcome) := Run(scan, t, p, fuel);
            outcome == Done && u.books == t.books && p in u.journals && IsApplied(u.journals[p]))
  {
    RunsKeep(scan, d, es);
    var t := After(scan, d, es);
    hide After;
    if TheRow(t.books.rows, p.attemptId).Some? && HasRowBy(t.books, p) {
      assert [PutApplied(true)][..1] == [PutApplied(true)] && [PutApplied(true)][..0] == [];
      assert PerformAll(t, p, [PutApplied(true)]) == Perform(PerformAll(t, p, []), p, PutApplied(true));
      hide Script, TheRow, Inv;
    }
  }

  // ---- the gap --------------------------------------------------------------------------

  /** A journal directory without a receipt, and no row reconciled by the plan. */
  ghost predicate InGap(d: Stage, p: Plan) {
    p in d.journals && d.journals[p].receipt.None? && !HasRowBy(d.books, p)
  }

  lemma {:induction false} GapStep(scan: Scanner, d: Stage, e: Event, p: Plan)
    requires InGap(d, p)
    ensures InGap(Next(scan, d, e), p) && (e.Apply? && e.plan == p ==> Next(scan, d, e) == d)
  {
    if e.Apply? {
      if e.plan == p {
        hide BuildPlan, TheRow, AllWhole, PerformAll;
        assert Script(scan, d, p).None?;
      } else {
        RunDoes(scan, d, e.plan, e.fuel);
        hide BuildPlan, TheRow, Run;
        var t := Next(scan, d, e);
        assert forall i | 0 <= i < |t.books.rows| && t.books.rows[i].reconciliation != Some(e.plan) ::
          t.books.rows[i] == d.books.rows[i];
      }
    }
  }

  /** Once in the gap, forever in it: every later run of the plan is refused and writes nothing. */
  lemma {:induction false} GapIsForGood(scan: Scanner, d: Stage, es: seq<Event>, p: Plan, fuel: nat)
    requires InGap(d, p)
    ensures InGap(After(scan, d, es), p)
    ensures Run(scan, After(scan, d, es), p, fuel) == (After(scan, d, es), Refused)
    decreases |es|
  {
    if es == [] {
      hide BuildPlan, TheRow, AllWhole, PerformAll;
      assert Script(scan, d, p).None?;
    } else {
      GapStep(scan, d, es[0], p);
      hide Next, Run, InGap;
      GapIsForGood(scan, Next(scan, d, es[0]), es[1..], p, fuel);
    }
  }
}
