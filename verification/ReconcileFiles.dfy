/** The campaign stage as files that apply_plan rewrites one at a time and may die between. */
module ReconcileFiles {
  import opened Common
  import opened ReconcilePlan
  import opened ReconcileRuns

  class StageFiles {
    var books: Books
    var segments: map<string, Segment>
    var journals: map<Plan, Journal>

    ghost function View(): Stage
      reads this
    {
      Stage(books, segments, journals)
    }

    constructor (s: Stage)
      ensures View() == s
    {
      books, segments, journals := s.books, s.segments, s.journals;
    }

    /** One durable write. */
    method WriteOne(p: Plan, w: Write)
      modifies this
      ensures View() == Perform(old(View()), p, w)
    {
      if w.PutBooks? {
        var at := TheRow(books.rows, p.attemptId);
        if at.Some? {
          books := Reconciled(books, p, at.value);
        }
        return;
      }
      var j := if p in journals then journals[p] else EMPTY;
      match w {
        case MakeJournal => j := EMPTY;
        case PutPlan => j := j.(plan := Some(p));
        case OpenBackup(k) => j := SetBackup(j, k, Torn);
        case FillBackup(k) => j := SetBackup(j, k, Whole);
        case PutPrepared => j := j.(receipt := Some(Receipt(Prepared, None, false)));
        case PutApplied(recovered) => j := j.(receipt := Some(Receipt(Applied, Some(books), recovered)));
        case PutBooks =>
      }
      journals := journals[p := j];
    }

    /** Writes in order until done or out of fuel. */
    method WriteAll(p: Plan, ws: seq<Write>, fuel: nat) returns (left: nat, crashed: bool)
      modifies this
      ensures View() == PerformAll(old(View()), p, ws[..Min(fuel, |ws|)])
      ensures crashed <==> fuel < |ws|
      ensures left == if crashed then 0 else fuel - |ws|
    {
      left := fuel;
      ghost var start := View();
      for i := 0 to |ws|
        invariant i <= fuel && left == fuel - i
        invariant View() == PerformAll(start, p, ws[..i])
      {
        if left == 0 {
          return 0, true;
        }
        PrefixStep(start, p, ws, i + 1);
        WriteOne(p, ws[i]);
        left := left - 1;
      }
      assert ws[..|ws|] == ws;
      crashed := false;
    }

    /** apply_plan, dying after at most fuel writes. */
    method ApplyPlan(scan: Scanner, p: Plan, fuel: nat) returns (outcome: Outcome)
      modifies this
      ensures (View(), outcome) == Run(scan, old(View()), p, fuel)
    {
      ghost var start := View();
      var stage := Stage(books, segments, journals);
      var at := TheRow(books.rows, p.attemptId);
      hide TheRow, BuildPlan, AllWhole, Perform;
      if at.None? {
        return Refused;
      }
      if books.rows[at.value].reconciliation == Some(p) {
        outcome := Replay(scan, p, fuel, at.value);
        return;
      }
      if BuildPlan(scan, stage, p.segment, p.attemptId) != Some(p) {
        return Refused;
      }
      if p in journals {
        if !Intact(stage, p) || !journals[p].receipt.value.status.Prepared? {
          return Refused;
        }
        var left, crashed := WriteAll(p, FINISH, fuel);
        return if crashed then Crashed else Done;
      }
      assert Script(scan, start, p) == Some(PREPARE + FINISH);
      outcome := FirstRun(p, fuel, at.value);
    }

    method Replay(scan: Scanner, p: Plan, fuel: nat, i: nat) returns (outcome: Outcome)
      requires TheRow(books.rows, p.attemptId) == Some(i) && books.rows[i].reconciliation == Some(p)
      modifies this
      ensures (View(), outcome) == Run(scan, old(View()), p, fuel)
    {
      hide TheRow, BuildPlan, AllWhole, Perform;
      var row := books.rows[i];
      if !Intact(Stage(books, segments, journals), p) || !row.status.Committed? || row.settledUsd != p.settled {
        return Refused;
      }
      if journals[p].receipt.value.status.Prepared? {
        var left, crashed := WriteAll(p, [PutApplied(true)], fuel);
        return if crashed then Crashed else Done;
      }
      assert PerformAll(View(), p, [][..0]) == View();
      outcome := Done;
    }

    /** Prepare the journal, check its backups, then write the ledger and the final receipt. */
    method FirstRun(p: Plan, fuel: nat, i: nat) returns (outcome: Outcome)
      requires TheRow(books.rows, p.attemptId) == Some(i)
      modifies this
      ensures View() == PerformAll(old(View()), p, (PREPARE + FINISH)[..Min(fuel, 13)])
      ensures outcome == if fuel < 13 then Crashed else Done
    {
      ghost var start := View();
      hide TheRow, AllWhole, Perform, Reconciled;
      var left, crashed := WriteAll(p, PREPARE, fuel);
      if crashed {
        assert (PREPARE + FINISH)[..fuel] == PREPARE[..fuel];
        return Crashed;
      }
      assert PREPARE[..11] == PREPARE;
      PrepareReaches(start, p, PREPARED_AT);
      BackupsVerified(start, p);
      if !AllWhole(journals[p]) {
        return Refused;
      }
      ghost var prepared := View();
      left, crashed := WriteAll(p, FINISH, left);
      ghost var n := Min(fuel, 13);
      assert (PREPARE + FINISH)[..n] == PREPARE + FINISH[..n - 11];
      PerformConcat(start, p, PREPARE, FINISH[..n - 11]);
      outcome := if crashed then Crashed else Done;
    }
  }

  lemma {:induction false} BackupsVerified(d: Stage, p: Plan)
    ensures var e := WithJournal(d, p, JournalAfter(p, PREPARED_AT)); p in e.journals && AllWhole(e.journals[p])
  {
  }
}
