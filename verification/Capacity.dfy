/** The capacity plan of the frozen workload: its closed form, and the exact install budget that fits. */
module Capacity {
  import opened Common
  import opened OracleDocuments
  import opened BackupOracle
  import opened LoadAuthority

  const CATALOG_PACKAGES := 120
  const CATALOG_VERSIONS := 4
  const PAYLOAD_LINES := 40
  const BUDGET_PER_WINDOW := 1024
  const MAX_WINDOWS := 4
  const INSTALL_BUDGET := BUDGET_PER_WINDOW * MAX_WINDOWS

  const RECEIPT_ROW := 384
  const JOURNAL_ROW := 512
  const OUTBOX_ROW := 512
  const POINTER_ROW := 256
  const MANIFEST_ROW := 1024
  const DESCRIPTOR_OVERHEAD := 4096
  const ZIP_OVERHEAD := 1024
  const ARCHIVE_BYTES := 9 * 1024 * 1024

  // ---- names and payloads ---------------------------------------------------------------

  function Digit(n: nat): char
    requires n < 10
  {
    (48 + n) as char
  }

  function PackageName(index: nat): string
    requires index < 1000
  {
    "pkg-" + [Digit(index / 100), Digit(index / 10 % 10), Digit(index % 10)]
  }

  lemma PackageNamesDiffer(a: nat, b: nat)
    requires a < 1000 && b < 1000 && PackageName(a) == PackageName(b)
    ensures a == b
  {
    var s, t := PackageName(a), PackageName(b);
    assert s[4] == t[4] && s[5] == t[5] && s[6] == t[6];
    SameDigit(a / 100, b / 100);
    SameDigit(a / 10 % 10, b / 10 % 10);
    SameDigit(a % 10, b % 10);
    FromDigits(a);
    FromDigits(b);
    hide PackageName, Digit;
  }

  lemma SameDigit(a: nat, b: nat)
    requires a < 10 && b < 10
    ensures Digit(a) == Digit(b) ==> a == b
  {
  }

  lemma FromDigits(n: nat)
    ensures n == n / 100 * 100 + n / 10 % 10 * 10 + n % 10
  {
  }

  function Lines(n: nat): (s: string)
    ensures |s| == 18 * n
  {
    if n == 0 then "" else "data-package-line\n" + Lines(n - 1)
  }

  function PayloadText(name: string, version: nat): string
    requires version < 10
  {
    "package=" + name + ";version=" + [Digit(version)] + ";\n" + Lines(PAYLOAD_LINES)
  }

  /** The largest catalog payload. */
  method PayloadBound() returns (bound: nat)
    ensures bound == 747
    ensures forall i: nat, v: nat | i < CATALOG_PACKAGES && 1 <= v <= CATALOG_VERSIONS ::
      |PayloadText(PackageName(i), v)| <= bound
  {
    bound := 0;
    for index := 0 to CATALOG_PACKAGES
      invariant bound == if index == 0 then 0 else 747
    {
      for version := 1 to CATALOG_VERSIONS + 1
        invariant bound == if index == 0 && version == 1 then 0 else 747
      {
        var size := |PayloadText(PackageName(index), version)|;
        if size > bound {
          bound := size;
        }
      }
    }
  }

  // ---- the closure ----------------------------------------------------------------------

  /** What one slot's manifest depends on. */
  function Content(slot: nat): (Scope, string, nat) {
    (ScopeFor(slot), PackageName(slot % CATALOG_PACKAGES), 1 + slot % 3)
  }

  function Least(a: nat, b: nat): nat { if a <= b then a else b }

  ghost function ScopesUpTo(budget: nat): set<Scope> { set s | 0 <= s <= budget :: ScopeFor(s) }

  ghost function ContentsUpTo(budget: nat): set<(Scope, string, nat)> { set s | 0 <= s <= budget :: Content(s) }

  lemma RemainderKeepsResidues(slot: nat)
    ensures slot % 8 == slot % CATALOG_PACKAGES % 8 && slot % 3 == slot % CATALOG_PACKAGES % 3
  {
    var q, r := slot / 120, slot % 120;
    SameResidues(15 * q, 40 * q, r);
    assert slot == 8 * (15 * q) + r && slot == 3 * (40 * q) + r;
  }

  /** A slot and its remainder by 120 need the same manifest; slot 120 needs the seed's. */
  lemma ContentRepeats(slot: nat)
    ensures Content(slot) == Content(slot % CATALOG_PACKAGES)
  {
    hide ScopeFor, PackageName;
    RemainderKeepsResidues(slot);
    ScopeOfSlots(slot, slot % CATALOG_PACKAGES);
  }

  lemma SameResidues(a: nat, b: nat, r: nat)
    ensures (8 * a + r) % 8 == r % 8 && (3 * b + r) % 3 == r % 3
  {
  }

  lemma ContentsDiffer(a: nat, b: nat)
    requires a < CATALOG_PACKAGES && b < CATALOG_PACKAGES && Content(a) == Content(b)
    ensures a == b
  {
    hide ScopeFor, PackageName;
    PackageNamesDiffer(a, b);
  }

  /** Distinct manifests: one per slot up to 119, and none beyond. */
  lemma {:induction false} ManifestCount(budget: nat)
    ensures |ContentsUpTo(budget)| == Least(budget, 119) + 1
  {
    hide Content;
    if budget == 0 {
      assert ContentsUpTo(0) == {Content(0)};
    } else {
      ManifestCount(budget - 1);
      assert ContentsUpTo(budget) == ContentsUpTo(budget - 1) + {Content(budget)};
      if budget <= 119 {
        forall s: nat | s < budget ensures Content(s) != Content(budget) {
          if Content(s) == Content(budget) { ContentsDiffer(s, budget); }
        }
        assert Content(budget) !in ContentsUpTo(budget - 1);
      } else {
        ContentRepeats(budget);
        assert Content(budget % 120) in ContentsUpTo(budget - 1);
        assert ContentsUpTo(budget) == ContentsUpTo(budget - 1);
      }
    }
  }

  /** The slots that bring a new scope. */
  const NEW_SCOPES: set<nat> := {0, 1, 2, 3, 4, 5, 6, 7, 8, 9, 11, 12, 14, 15, 18, 21}

  function ScopeTotal(budget: nat): nat {
    if budget <= 9 then budget + 1
    else if budget <= 11 then budget
    else if budget <= 13 then 12
    else if budget == 14 then 13
    else if budget <= 17 then 14
    else if budget <= 20 then 15
    else 16
  }

  /** An earlier slot of the same scope: three rounds of tenants back, or within the first round. */
  function SameScopeBefore(slot: nat): nat
    requires slot !in NEW_SCOPES
  {
    if slot >= 24 then slot - 24
    else if slot == 17 || slot == 20 || slot == 23 then slot - 16
    else if slot >= 8 then slot - 8
    else 0
  }

  lemma RoundsBack(slot: nat)
    requires slot >= 24
    ensures (slot - 24) % 8 == slot % 8 && (slot - 24) % 3 == slot % 3
  {
  }

  lemma RepeatsScope(slot: nat)
    requires slot !in NEW_SCOPES
    ensures SameScopeBefore(slot) < slot && ScopeFor(SameScopeBefore(slot)) == ScopeFor(slot)
  {
    hide ScopeFor;
    if slot >= 24 {
      RoundsBack(slot);
    }
    ScopeOfSlots(SameScopeBefore(slot), slot);
  }

  lemma BringsScope(slot: nat, earlier: nat)
    requires slot in NEW_SCOPES && earlier < slot
    ensures ScopeFor(earlier) != ScopeFor(slot)
  {
    ScopeOfSlots(earlier, slot);
    hide ScopeFor;
  }

  lemma OneMoreScope(slot: nat)
    requires slot > 0
    ensures |ScopesUpTo(slot)| == |ScopesUpTo(slot - 1)| + if slot in NEW_SCOPES then 1 else 0
  {
    hide ScopeFor;
    assert ScopesUpTo(slot) == ScopesUpTo(slot - 1) + {ScopeFor(slot)};
    if slot in NEW_SCOPES {
      forall s: nat | s < slot ensures ScopeFor(s) != ScopeFor(slot) { BringsScope(slot, s); }
      assert ScopeFor(slot) !in ScopesUpTo(slot - 1);
    } else {
      RepeatsScope(slot);
      assert ScopeFor(SameScopeBefore(slot)) in ScopesUpTo(slot - 1);
      assert ScopesUpTo(slot) == ScopesUpTo(slot - 1);
    }
  }

  /** The number of scopes for every budget: all 16 exactly from 21 installs on. */
  lemma {:induction false} ScopeCount(budget: nat)
    ensures |ScopesUpTo(budget)| == ScopeTotal(budget)
    ensures |ScopesUpTo(budget)| == 16 <==> budget >= 21
  {
    hide ScopeFor;
    if budget == 0 {
      assert ScopesUpTo(0) == {ScopeFor(0)};
    } else {
      ScopeCount(budget - 1);
      OneMoreScope(budget);
    }
  }

  // ---- the plan -------------------------------------------------------------------------

  datatype Plan = Plan(scopes: nat, manifests: nat, members: nat, descriptor: nat, uncompressed: nat, archive: nat)

  function Sizes(budget: nat, scopes: nat, manifests: nat, journal: nat, outbox: nat, payload: nat): Plan {
    var objects := CATALOG_PACKAGES * CATALOG_VERSIONS;
    var descriptor := DESCRIPTOR_OVERHEAD + budget * RECEIPT_ROW + journal * JOURNAL_ROW + outbox * OUTBOX_ROW;
    var uncompressed := descriptor + manifests * MANIFEST_ROW + objects * payload + scopes * POINTER_ROW;
    Plan(scopes, manifests, 1 + manifests + objects + scopes + journal + outbox, descriptor, uncompressed,
         uncompressed * 102 / 100 + ZIP_OVERHEAD)
  }

  predicate Satisfiable(p: Plan) {
    p.members <= MEMBER_BOUND && p.descriptor <= MEMBER_BYTES && p.uncompressed <= TOTAL_BYTES
      && p.archive <= ARCHIVE_BYTES
  }

  function PlanFor(budget: nat, writers: nat, crashes: nat, attempts: nat): Plan {
    Sizes(budget, ScopeTotal(budget), Least(budget, 119) + 1, writers + crashes, attempts, 747)
  }

  type Row = (Option<nat>, (Scope, string, nat))

  function Contents(rows: set<Row>): set<(Scope, string, nat)> { set r | r in rows :: r.1 }

  lemma OnlySeed()
    ensures {ScopeFor(0)} == ScopesUpTo(0) && Contents({(None, Content(0))}) == ContentsUpTo(0)
  {
  }

  lemma OneMoreSlot(slot: nat, rows: set<Row>)
    requires slot > 0
    ensures ScopesUpTo(slot) == ScopesUpTo(slot - 1) + {ScopeFor(slot)}
    ensures ContentsUpTo(slot) == ContentsUpTo(slot - 1) + {Content(slot)}
    ensures Contents(rows + {(Some(slot % 24), Content(slot))}) == Contents(rows) + {Content(slot)}
  {
  }

  /** closure_plan: fill the sets slot by slot, then compute. The rows also carry slot % 24, which the
      manifest count drops; the seed's row has no slot. */
  method ClosurePlan(budget: nat, writers: nat, crashes: nat, attempts: nat) returns (plan: Plan)
    ensures plan == PlanFor(budget, writers, crashes, attempts)
  {
    var scopes := {ScopeFor(0)};
    var rows: set<Row> := {(None, Content(0))};
    OnlySeed();
    hide ScopeFor, Content, ScopesUpTo, ContentsUpTo, Contents, Sizes;
    for slot := 1 to budget + 1
      invariant scopes == ScopesUpTo(slot - 1)
      invariant Contents(rows) == ContentsUpTo(slot - 1)
    {
      OneMoreSlot(slot, rows);
      scopes := scopes + {ScopeFor(slot)};
      rows := rows + {(Some(slot % 24), Content(slot))};
    }
    var manifests := Contents(rows);
    ManifestCount(budget);
    ScopeCount(budget);
    var payload := PayloadBound();
    plan := Sizes(budget, |scopes|, |manifests|, writers + crashes, attempts, payload);
  }

  /** With the frozen schedule the plan fits exactly up to 5438 installs; the descriptor decides. */
  lemma FitsUpTo5438(budget: nat)
    ensures Satisfiable(PlanFor(budget, 4, 1, 4)) <==> budget <= 5438
    ensures budget == 5439 ==> var p := PlanFor(budget, 4, 1, 4);
      p.descriptor > MEMBER_BYTES && p.members <= MEMBER_BOUND && p.uncompressed <= TOTAL_BYTES
        && p.archive <= ARCHIVE_BYTES
  {
  }

  /** A smaller workload never stops fitting. */
  lemma FittingIsAntitone(a: nat, b: nat, writers: nat, crashes: nat, attempts: nat)
    requires a <= b && Satisfiable(PlanFor(b, writers, crashes, attempts))
    ensures Satisfiable(PlanFor(a, writers, crashes, attempts))
  {
  }

  /** The plan's sum leaves out the journal and outbox members; the frozen budget fits with them too. */
  lemma FrozenBudgetFitsWithRows()
    ensures var p := PlanFor(INSTALL_BUDGET, 4, 1, 4);
      var whole := p.uncompressed + 5 * JOURNAL_ROW + 4 * OUTBOX_ROW;
      Satisfiable(p) && whole <= TOTAL_BYTES && whole * 102 / 100 + ZIP_OVERHEAD <= ARCHIVE_BYTES
  {
  }

  /** window_budget; None outside the frozen windows. */
  function WindowBudget(index: int): Option<int> {
    if !(1 <= index <= MAX_WINDOWS) then None
    else Some(if index * BUDGET_PER_WINDOW <= INSTALL_BUDGET then index * BUDGET_PER_WINDOW else INSTALL_BUDGET)
  }

  /** Every window's slots fit, and each window adds new ones. */
  lemma WindowsFit(index: int)
    requires 1 <= index <= MAX_WINDOWS
    ensures WindowBudget(index).Some? && 0 < WindowBudget(index).value
    ensures Satisfiable(PlanFor(WindowBudget(index).value, 4, 1, 4))
    ensures index < MAX_WINDOWS ==> WindowBudget(index).value < WindowBudget(index + 1).value
  {
    FitsUpTo5438(WindowBudget(index).value);
    hide PlanFor;
  }
}
