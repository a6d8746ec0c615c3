/**
 The load's workload and the authority database it drives: the scope and key of a slot, the slot
 read back from the keys when a window resumes, and the install seen as a compare-and-swap on the
 scope's current generation.
 */
module LoadAuthority {
  import opened Common
  import opened Decimals
  import opened MemberNames
  import opened JsonValues
  import opened AuthorityRows
  import opened OracleDocuments
  import opened BackupOracle
  import BackupChecks

  const TENANT_COUNT := 8

  // ---- the schedule ---------------------------------------------------------------------

  function ScopeFor(slot: nat): Scope {
    ("tenant-0" + [(48 + slot % TENANT_COUNT) as char], if slot % 3 == 0 then "staging" else "prod")
  }

  lemma ScopeOfSlots(a: nat, b: nat)
    ensures ScopeFor(a) == ScopeFor(b) <==> a % 8 == b % 8 && (a % 3 == 0 <==> b % 3 == 0)
  {
    assert ScopeFor(a).0[8] == (48 + a % 8) as char && ScopeFor(b).0[8] == (48 + b % 8) as char;
    assert "staging"[0] != "prod"[0];
  }

  /** Slots fewer than eight apart never share a scope. */
  lemma NearSlotsApart(a: nat, b: nat)
    requires a < b < a + 8
    ensures ScopeFor(a) != ScopeFor(b)
  {
    ScopeOfSlots(a, b);
    hide ScopeFor;
    assert a % 8 != b % 8;
  }

  predicate Apart(base: nat, i: nat, j: nat) { ScopeFor(base + i) != ScopeFor(base + j) }

  ghost predicate AlwaysDisjoint(writers: nat) {
    forall base: nat, i: nat, j: nat | i < j < writers :: Apart(base, i, j)
  }

  /** Rounds of W consecutive slots stay scope-disjoint for every start exactly up to W == 8. */
  lemma DisjointUpToEight(writers: nat)
    ensures AlwaysDisjoint(writers) <==> writers <= 8
  {
    if writers <= 8 {
      forall base: nat, i: nat, j: nat | i < j < writers ensures Apart(base, i, j) {
        NearSlotsApart(base + i, base + j);
      }
    } else {
      ScopeOfSlots(2, 10);
      assert !Apart(2, 0, 8);
    }
  }

  // ---- keys -----------------------------------------------------------------------------

  const RELEASE := "release-"

  function KeyFor(slot: nat): string { RELEASE + Pad6(slot) }

  predicate IsDigits(s: string) { s != "" && forall i | 0 <= i < |s| :: '0' <= s[i] <= '9' }

  /** The text before the first dash. */
  function Segment(s: string): string {
    if s == "" || s[0] == '-' then "" else [s[0]] + Segment(s[1..])
  }

  /** int(key.split("-")[1]) of the keys that authority_state counts. */
  function SlotOf(key: string): Option<int> {
    if RELEASE <= key && IsDigits(Segment(key[|RELEASE|..])) then Some(Value(Segment(key[|RELEASE|..]))) else None
  }

  lemma {:induction false} DigitsAreDigits(n: nat)
    ensures IsDigits(Digits(n))
  {
    if n >= 10 { DigitsAreDigits(n / 10); }
  }

  lemma {:induction false} SegmentOfDigits(s: string)
    requires forall i | 0 <= i < |s| :: '0' <= s[i] <= '9'
    ensures Segment(s) == s
  {
    if s != "" { SegmentOfDigits(s[1..]); }
  }

  /** A slot's key reads back as that slot. */
  lemma SlotOfKey(slot: nat)
    ensures SlotOf(KeyFor(slot)) == Some(slot)
  {
    DigitsAreDigits(slot);
    PadValue(slot);
    var p := Pad6(slot);
    assert IsDigits(p);
    SegmentOfDigits(p);
    assert KeyFor(slot)[|RELEASE|..] == p;
  }

  function MaxSlot(receipts: seq<Receipt>): int {
    if receipts == [] then 0
    else
      var rest := MaxSlot(receipts[1..]);
      match SlotOf(receipts[0].key)
      case Some(slot) => if slot > rest then slot else rest
      case None => rest
  }

  ghost predicate KeyUnused(receipts: seq<Receipt>, slot: nat) {
    forall r | r in receipts :: r.key != KeyFor(slot)
  }

  /** No slot beyond the greatest stored one has its key in the database. */
  lemma {:induction false} LaterKeysUnused(receipts: seq<Receipt>, slot: nat)
    requires slot > MaxSlot(receipts)
    ensures KeyUnused(receipts, slot)
  {
    if receipts != [] {
      SlotOfKey(slot);
      LaterKeysUnused(receipts[1..], slot);
      hide SlotOf, KeyFor;
      forall r | r in receipts ensures r.key != KeyFor(slot) {
        assert r == receipts[0] || r in receipts[1..];
      }
    }
  }

  lemma KeysInjective(a: nat, b: nat)
    requires KeyFor(a) == KeyFor(b)
    ensures a == b
  {
    SlotOfKey(a);
    SlotOfKey(b);
  }

  // ---- the authority --------------------------------------------------------------------

  datatype Authority = Authority(receipts: seq<Receipt>, current: seq<Current>)

  ghost predicate Coherent(db: Authority) { GenerationsOk(db.receipts, db.current) }

  /** The generation a scope's current row names, 0 without one. */
  function Generation(current: seq<Current>, scope: Scope): int {
    if current == [] then 0
    else if CurrentScope(current[0]) == scope then current[0].generation
    else Generation(current[1..], scope)
  }

  function Upsert(current: seq<Current>, c: Current): seq<Current> {
    if current == [] then [c]
    else if CurrentScope(current[0]) == CurrentScope(c) then [c] + current[1..]
    else [current[0]] + Upsert(current[1..], c)
  }

  /** A committed install: one more receipt, and the scope's current row names it. */
  function Commit(db: Authority, slot: nat, manifest: string, request: string): Authority {
    var (tenant, environment) := ScopeFor(slot);
    var next := Generation(db.current, (tenant, environment)) + 1;
    Authority(db.receipts + [Receipt(tenant, environment, KeyFor(slot), next, manifest, Str(request))],
              Upsert(db.current, Current(tenant, environment, KeyFor(slot), next, manifest, map[])))
  }

  ghost predicate OneRowEach(current: seq<Current>) {
    forall i, j | 0 <= i < j < |current| :: CurrentScope(current[i]) != CurrentScope(current[j])
  }

  ghost predicate HasRow(current: seq<Current>, scope: Scope) {
    exists i :: 0 <= i < |current| && CurrentScope(current[i]) == scope
  }

  ghost predicate ScopeHistory(db: Authority, scope: Scope) {
    var gens := Generations(db.receipts, scope);
    if gens == [] then !HasRow(db.current, scope)
    else Contiguous(gens) && HasRow(db.current, scope) && Generation(db.current, scope) == |gens|
  }

  lemma {:induction false} RowGeneration(current: seq<Current>, i: nat)
    requires OneRowEach(current) && i < |current|
    ensures Generation(current, CurrentScope(current[i])) == current[i].generation
  {
    if i > 0 { RowGeneration(current[1..], i - 1); }
  }

  lemma {:induction false} NoRowNoGeneration(current: seq<Current>, scope: Scope)
    requires !HasRow(current, scope)
    ensures Generation(current, scope) == 0
  {
    if current != [] {
      HeadRow(current[0], current[1..]);
      assert current == [current[0]] + current[1..];
      NoRowNoGeneration(current[1..], scope);
    }
  }

  /** Coherence, one scope at a time. */
  lemma CoherentByScope(db: Authority)
    ensures Coherent(db) <==> OneRowEach(db.current) && forall s :: ScopeHistory(db, s)
  {
    forall s {
      BackupChecks.GenerationsOf(db.receipts, s);
    }
    if Coherent(db) {
      forall s ensures ScopeHistory(db, s) { HistoryOf(db, s); }
    }
    if OneRowEach(db.current) && forall s :: ScopeHistory(db, s) {
      forall r | r in db.receipts
        ensures Contiguous(Generations(db.receipts, ScopeOf(r)))
        ensures NamesCurrent(db.current, ScopeOf(r), |Generations(db.receipts, ScopeOf(r))|)
      {
        var s := ScopeOf(r);
        assert ScopeHistory(db, s);
        var i :| 0 <= i < |db.current| && CurrentScope(db.current[i]) == s;
        RowGeneration(db.current, i);
      }
      forall c | c in db.current ensures exists r :: r in db.receipts && ScopeOf(r) == CurrentScope(c) {
        assert ScopeHistory(db, CurrentScope(c));
        assert HasRow(db.current, CurrentScope(c));
      }
    }
  }

  lemma HistoryOf(db: Authority, s: Scope)
    requires Coherent(db)
    ensures ScopeHistory(db, s)
  {
    BackupChecks.GenerationsOf(db.receipts, s);
    if Generations(db.receipts, s) != [] {
      var r :| r in db.receipts && ScopeOf(r) == s;
      var n := |Generations(db.receipts, s)|;
      assert NamesCurrent(db.current, s, n);
      var i :| 0 <= i < |db.current| && CurrentScope(db.current[i]) == s && db.current[i].generation == n;
      RowGeneration(db.current, i);
    } else {
      assert forall c | c in db.current :: CurrentScope(c) != s;
    }
  }

  lemma {:induction false} UpsertGeneration(current: seq<Current>, c: Current, s: Scope)
    ensures Generation(Upsert(current, c), s) == if s == CurrentScope(c) then c.generation else Generation(current, s)
  {
    if current != [] && CurrentScope(current[0]) != CurrentScope(c) {
      UpsertGeneration(current[1..], c, s);
      assert Upsert(current, c)[1..] == Upsert(current[1..], c);
    }
  }

  lemma {:induction false} UpsertRows(current: seq<Current>, c: Current)
    ensures var out := Upsert(current, c);
      && (forall s :: HasRow(out, s) <==> s == CurrentScope(c) || HasRow(current, s))
    ensures OneRowEach(current) ==> OneRowEach(Upsert(current, c))
  {
    if current == [] || CurrentScope(current[0]) == CurrentScope(c) {
      var out := Upsert(current, c);
      assert out[0] == c;
      forall s ensures HasRow(out, s) <==> s == CurrentScope(c) || HasRow(current, s) {
        if HasRow(current, s) {
          var i :| 0 <= i < |current| && CurrentScope(current[i]) == s;
          assert CurrentScope(out[i]) == s;
        }
        if HasRow(out, s) && s != CurrentScope(c) {
          var i :| 0 <= i < |out| && CurrentScope(out[i]) == s;
          assert CurrentScope(current[i]) == s;
        }
      }
    } else {
      UpsertRows(current[1..], c);
      UpsertPast(current, c);
    }
  }

  lemma UpsertCons(current: seq<Current>, c: Current)
    requires current != [] && CurrentScope(current[0]) != CurrentScope(c)
    ensures Upsert(current, c) == [current[0]] + Upsert(current[1..], c)
  {
  }

  lemma UpsertPast(current: seq<Current>, c: Current)
    requires current != [] && CurrentScope(current[0]) != CurrentScope(c)
    requires var out := Upsert(current[1..], c);
      && (forall s :: HasRow(out, s) <==> s == CurrentScope(c) || HasRow(current[1..], s))
      && (OneRowEach(current[1..]) ==> OneRowEach(out))
    ensures forall s :: HasRow(Upsert(current, c), s) <==> s == CurrentScope(c) || HasRow(current, s)
    ensures OneRowEach(current) ==> OneRowEach(Upsert(current, c))
  {
    hide *;
    var rest := Upsert(current[1..], c);
    UpsertCons(current, c);
    HeadRow(current[0], rest);
    HeadRow(current[0], current[1..]);
    OneHead(current[0], rest);
    OneHead(current[0], current[1..]);
    assert current == [current[0]] + current[1..];
  }

  lemma OneHead(head: Current, rest: seq<Current>)
    ensures OneRowEach([head] + rest) <==> OneRowEach(rest) && !HasRow(rest, CurrentScope(head))
  {
    var all := [head] + rest;
    if OneRowEach(all) {
      forall i, j | 0 <= i < j < |rest| ensures CurrentScope(rest[i]) != CurrentScope(rest[j]) {
        assert all[i + 1] == rest[i] && all[j + 1] == rest[j];
      }
      forall i | 0 <= i < |rest| ensures CurrentScope(rest[i]) != CurrentScope(head) {
        assert all[0] == head && all[i + 1] == rest[i];
      }
    }
  }

  lemma HeadRow(head: Current, rest: seq<Current>)
    ensures forall s :: HasRow([head] + rest, s) <==> s == CurrentScope(head) || HasRow(rest, s)
  {
    var all := [head] + rest;
    forall s ensures HasRow(all, s) <==> s == CurrentScope(head) || HasRow(rest, s) {
      if s == CurrentScope(head) { assert CurrentScope(all[0]) == s; }
      if HasRow(rest, s) {
        var i :| 0 <= i < |rest| && CurrentScope(rest[i]) == s;
        assert CurrentScope(all[i + 1]) == s;
      }
    }
  }

  /** A commit moves its own scope one generation on, leaves the others, and keeps coherence. */
  lemma CommitKeeps(db: Authority, slot: nat, manifest: string, request: string)
    requires Coherent(db)
    ensures Coherent(Commit(db, slot, manifest, request))
    ensures forall s :: Generation(Commit(db, slot, manifest, request).current, s)
                     == Generation(db.current, s) + if s == ScopeFor(slot) then 1 else 0
  {
    var after := Commit(db, slot, manifest, request);
    var row := CommitShape(db, slot, manifest, request);
    CoherentByScope(db);
    CoherentByScope(after);
    hide *;
    forall s ensures ScopeHistory(after, s) { HistoryExtended(db, after, row, s); }
  }

  lemma CommitShape(db: Authority, slot: nat, manifest: string, request: string) returns (row: Receipt)
    ensures var after := Commit(db, slot, manifest, request);
      && after.receipts == db.receipts + [row] && ScopeOf(row) == ScopeFor(slot)
      && row.generation == Generation(db.current, ScopeOf(row)) + 1
      && (OneRowEach(db.current) ==> OneRowEach(after.current))
      && (forall s ::
           Generation(after.current, s) == if s == ScopeOf(row) then row.generation else Generation(db.current, s))
      && (forall s :: HasRow(after.current, s) <==> s == ScopeOf(row) || HasRow(db.current, s))
  {
    hide KeyFor, ScopeFor, Upsert, HasRow, OneRowEach, Generation;
    var after := Commit(db, slot, manifest, request);
    row := after.receipts[|db.receipts|];
    var c := Current(row.tenant, row.environment, row.key, row.generation, manifest, map[]);
    assert after.current == Upsert(db.current, c) && CurrentScope(c) == ScopeOf(row);
    UpsertRows(db.current, c);
    forall s ensures HasRow(after.current, s) <==> s == ScopeOf(row) || HasRow(db.current, s) {
      assert HasRow(Upsert(db.current, c), s) <==> s == CurrentScope(c) || HasRow(db.current, s);
    }
    forall s { UpsertGeneration(db.current, c, s); }
  }

  /** One scope's history after a receipt with the scope's next generation was added. */
  lemma HistoryExtended(db: Authority, after: Authority, row: Receipt, s: Scope)
    requires ScopeHistory(db, s) && after.receipts == db.receipts + [row]
    requires row.generation == Generation(db.current, ScopeOf(row)) + 1
    requires Generation(after.current, s) == if s == ScopeOf(row) then row.generation else Generation(db.current, s)
    requires HasRow(after.current, s) <==> s == ScopeOf(row) || HasRow(db.current, s)
    ensures ScopeHistory(after, s)
  {
    hide HasRow, Generation, Contiguous;
    BackupChecks.GenerationsSnoc(after.receipts, |db.receipts|, s);
    assert after.receipts[..|db.receipts|] == db.receipts && after.receipts[..|db.receipts| + 1] == after.receipts;
    hide Generations;
    if s == ScopeOf(row) {
      NoRowOrCount(db, s);
      Extended(Generations(db.receipts, s));
    }
  }

  lemma NoRowOrCount(db: Authority, s: Scope)
    requires ScopeHistory(db, s)
    ensures Generation(db.current, s) == |Generations(db.receipts, s)|
  {
    if Generations(db.receipts, s) == [] { NoRowNoGeneration(db.current, s); }
  }

  lemma Extended(gens: seq<int>)
    requires gens == [] || Contiguous(gens)
    ensures Contiguous(gens + [|gens| + 1])
  {
    assert UpTo(|gens| + 1) == UpTo(|gens|) + [|gens| + 1];
    assert |gens + [|gens| + 1]| == |gens| + 1;
    if gens == [] { assert UpTo(0) == []; }
  }
}
