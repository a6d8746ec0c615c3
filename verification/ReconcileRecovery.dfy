/**
 Recovery after any number of crashes. While the evidence does not change, a plan moves through the
 stages its writes leave, and every run of it, crashing or not, moves it on in a known way.
 */
module ReconcileRecovery {
  import opened Common
  import opened ReconcilePlan
  import opened ReconcileRuns

  /** The stage after k writes of a first application; 14 is an application completed by a rerun. */
  function StageAt(d: Stage, p: Plan, i: nat, k: nat): Stage
    requires i < |d.books.rows|
  {
    if k <= 13 then StageAfter(d, p, i, k)
    else
      var b := Reconciled(d.books, p, i);
      WithJournal(d.(books := b), p, JournalAfter(p, PREPARED_AT).(receipt := Some(Receipt(Applied, Some(b), true))))
  }

  /** The writes a run still has to make. */
  function Remaining(k: nat): nat {
    if k == 0 then 13 else if k <= PREPARED_AT then 2 else if k == 12 then 1 else 0
  }

  predicate InGap(k: nat) { 0 < k < PREPARED_AT }

  /** Where a run that may make at most fuel writes leaves the stage. */
  function Moved(k: nat, fuel: nat): nat {
    if InGap(k) then k
    else if k == 12 && fuel > 0 then 14
    else k + Min(fuel, Remaining(k))
  }

  lemma {:induction false} RecoveredIsDone(scan: Scanner, d: Stage, p: Plan, i: nat)
    requires TheRow(d.books.rows, p.attemptId) == Some(i)
    ensures Script(scan, StageAt(d, p, i, 14), p) == Some([])
  {
    ReconciledRow(d.books, p, i);
    hide BuildPlan, TheRow;
  }

  /** One run of the plan, from any of its stages. */
  lemma {:induction false} RunMoves(scan: Scanner, d: Stage, p: Plan, i: nat, k: nat, fuel: nat)
    requires Script(scan, d, p) == Some(PREPARE + FINISH) && TheRow(d.books.rows, p.attemptId) == Some(i) && k <= 14
    ensures Run(scan, StageAt(d, p, i, k), p, fuel) ==
      (StageAt(d, p, i, Moved(k, fuel)), if InGap(k) then Refused else if fuel < Remaining(k) then Crashed else Done)
  {
    PlanBindsScript(scan, d, p);
    ReconciledRow(d.books, p, i);
    hide Script, BuildPlan, TheRow, PerformAll, JournalAfter, Reconciled;
    if k == 0 {
      StageReached(d, p, i, Min(fuel, 13));
    } else if k < PREPARED_AT {
      GapRefuses(scan, d, p, k);
    } else if k == PREPARED_AT {
      FromPrepared(scan, d, p, i, fuel);
    } else if k == 14 {
      RecoveredIsDone(scan, d, p, i);
      NoWrites(StageAt(d, p, i, 14), p);
    } else {
      FromWritten(scan, d, p, i, k, fuel);
    }
  }

  lemma NoWrites(d: Stage, p: Plan)
    ensures PerformAll(d, p, []) == d
  {
  }

  lemma {:induction false} FromPrepared(scan: Scanner, d: Stage, p: Plan, i: nat, fuel: nat)
    requires BuildPlan(scan, d, p.segment, p.attemptId) == Some(p) && TheRow(d.books.rows, p.attemptId) == Some(i)
    requires d.books.rows[i].reconciliation != Some(p)
    ensures Run(scan, StageAt(d, p, i, 11), p, fuel) ==
      (StageAt(d, p, i, 11 + Min(fuel, 2)), if fuel < 2 then Crashed else Done)
  {
    hide Script, BuildPlan, TheRow, PerformAll, JournalAfter, Reconciled;
    var e := StageAt(d, p, i, 11);
    PreparedFinishes(scan, d, p, i);
    FinishReaches(e, p, i);
    NoWrites(e, p);
    assert FINISH[..0] == [] && |FINISH| == 2;
    var b := Reconciled(d.books, p, i);
    assert forall j :: WithJournal(e.(books := b), p, j).journals == WithJournal(d.(books := b), p, j).journals;
  }

  lemma {:induction false} FromWritten(scan: Scanner, d: Stage, p: Plan, i: nat, k: nat, fuel: nat)
    requires TheRow(d.books.rows, p.attemptId) == Some(i) && 12 <= k <= 13
    requires TheRow(Reconciled(d.books, p, i).rows, p.attemptId) == Some(i)
    ensures Run(scan, StageAt(d, p, i, k), p, fuel) ==
      (StageAt(d, p, i, Moved(k, fuel)), if fuel < Remaining(k) then Crashed else Done)
  {
    hide Script, BuildPlan, TheRow, PerformAll, Reconciled;
    var e := StageAt(d, p, i, k);
    AfterTheLedger(scan, d, p, i, k);
    NoWrites(e, p);
    if k == 12 {
      assert [PutApplied(true)][..0] == [];
    }
    var b := Reconciled(d.books, p, i);
    assert forall j :: WithJournal(e, p, j).journals == WithJournal(d.(books := b), p, j).journals;
  }

  // ---- any number of runs ---------------------------------------------------------------

  predicate OnlyRuns(es: seq<Event>, p: Plan) { forall e | e in es :: e.Apply? && e.plan == p }

  function MovedAll(k: nat, es: seq<Event>): nat
    requires forall e | e in es :: e.Apply?
    decreases |es|
  {
    if es == [] then k else MovedAll(Moved(k, es[0].fuel), es[1..])
  }

  lemma {:induction false} RunsMove(scan: Scanner, d: Stage, p: Plan, i: nat, k: nat, es: seq<Event>)
    requires Script(scan, d, p) == Some(PREPARE + FINISH) && TheRow(d.books.rows, p.attemptId) == Some(i) && k <= 14
    requires OnlyRuns(es, p)
    ensures MovedAll(k, es) <= 14 && After(scan, StageAt(d, p, i, k), es) == StageAt(d, p, i, MovedAll(k, es))
    decreases |es|
  {
    hide Script, TheRow, Run, StageAt;
    if es != [] {
      assert es[0] in es;
      RunMoves(scan, d, p, i, k, es[0].fuel);
      assert forall e | e in es[1..] :: e in es;
      RunsMove(scan, d, p, i, Moved(k, es[0].fuel), es[1..]);
    }
  }

  /** How many writes the first run to write anything made. */
  function FirstWrites(es: seq<Event>): nat
    requires forall e | e in es :: e.Apply?
    decreases |es|
  {
    if es == [] then 0 else if es[0].fuel > 0 then Min(es[0].fuel, 13) else FirstWrites(es[1..])
  }

  /** Some run died after the ledger was written and before its receipt, so a later one completed it. */
  predicate LostReceipt(k: nat, es: seq<Event>)
    requires forall e | e in es :: e.Apply?
    decreases |es|
  {
    k == 12 || k == 14 || (es != [] && LostReceipt(Moved(k, es[0].fuel), es[1..]))
  }

  lemma {:induction false} LostDecides(k: nat, es: seq<Event>)
    requires k <= 14 && forall e | e in es :: e.Apply?
    ensures LostReceipt(k, es) <==> MovedAll(k, es) == 12 || MovedAll(k, es) == 14
    decreases |es|
  {
    if es != [] {
      assert es[0] in es;
      assert forall e | e in es[1..] :: e in es;
      LostDecides(Moved(k, es[0].fuel), es[1..]);
    }
  }

  /** Only the first run to write anything can leave the gap behind, and nothing leaves the gap. */
  lemma {:induction false} FirstDecides(k: nat, es: seq<Event>)
    requires k <= 14 && forall e | e in es :: e.Apply?
    ensures MovedAll(k, es) <= 14
    ensures k > 0 ==> (InGap(MovedAll(k, es)) <==> InGap(k)) && MovedAll(k, es) > 0
    ensures k == 0 ==> (InGap(MovedAll(0, es)) <==> InGap(FirstWrites(es)))
    decreases |es|
  {
    if es != [] {
      assert es[0] in es;
      assert forall e | e in es[1..] :: e in es;
      FirstDecides(Moved(k, es[0].fuel), es[1..]);
    }
  }

  /**
   A plan is applied by any sequence of runs, each of which may die after any number of writes, and
   the evidence does not change. One more run then ends applied with the ledger of the uninterrupted
   run, whatever the crashes were, if and only if the first run that wrote anything did not die
   between creating the journal and the prepared receipt; otherwise it is refused, and the ledger was
   never touched.
   */
  lemma {:induction false} CrashesThenRerun(scan: Scanner, d: Stage, p: Plan, es: seq<Event>, fuel: nat)
    requires Script(scan, d, p) == Some(PREPARE + FINISH) && OnlyRuns(es, p) && fuel >= 13
    ensures var crashed := After(scan, d, es);
      var (t, outcome) := Run(scan, crashed, p, fuel);
      var whole := Run(scan, d, p, 13).0;
      if InGap(FirstWrites(es)) then outcome == Refused && t == crashed && t.books == d.books
      else
        && outcome == Done && t.books == whole.books && t.books != d.books
        && p in t.journals && t.journals[p].receipt == Some(Receipt(Applied, Some(whole.books), LostReceipt(0, es)))
  {
    hide Script, BuildPlan, PerformAll, JournalAfter, Reconciled, Run, MovedAll, StageAt, After, FirstWrites,
         LostReceipt;
    PlanBindsScript(scan, d, p);
    var i := TheRow(d.books.rows, p.attemptId).value;
    var k := MovedAll(0, es);
    hide TheRow;
    StageShape(d, p, i, 0);
    RunsMove(scan, d, p, i, 0, es);
    FirstDecides(0, es);
    LostDecides(0, es);
    RunMoves(scan, d, p, i, k, fuel);
    RunMoves(scan, d, p, i, 0, 13);
    StageShape(d, p, i, k);
    StageShape(d, p, i, Moved(k, fuel));
    StageShape(d, p, i, 13);
    BooksDiffer(d.books, p, i);
  }

  lemma BooksDiffer(b: Books, p: Plan, i: nat)
    requires i < |b.rows| && b.rows[i].reconciliation != Some(p)
    ensures Reconciled(b, p, i) != b
  {
    assert Reconciled(b, p, i).rows[i].reconciliation == Some(p);
  }

  lemma StageShape(d: Stage, p: Plan, i: nat, k: nat)
    requires i < |d.books.rows| && k <= 14
    ensures StageAt(d, p, i, 0) == d
    ensures k <= PREPARED_AT ==> StageAt(d, p, i, k).books == d.books
    ensures var t := StageAt(d, p, i, k);
      k >= 13 ==>
        && t.books == Reconciled(d.books, p, i) && p in t.journals
        && t.journals[p].receipt == Some(Receipt(Applied, Some(t.books), k == 14))
  {
    hide Reconciled;
  }
}
