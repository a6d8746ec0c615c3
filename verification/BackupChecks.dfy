/** The oracle's checks as they run: loops over rows and members, proved against the acceptance
    predicate. A raised ValueError is a false or empty result. */
module BackupChecks {
  import opened Common
  import opened MemberNames
  import opened JsonValues
  import opened AuthorityRows
  import opened OracleDocuments
  import opened BackupOracle
  import opened BackupTheorems

  // ---- sorting --------------------------------------------------------------------------

  predicate Ascending(s: seq<int>) { forall i, j | 0 <= i < j < |s| :: s[i] <= s[j] }

  function Insert(s: seq<int>, x: int): seq<int> {
    if s == [] || x <= s[0] then [x] + s else [s[0]] + Insert(s[1..], x)
  }

  /** sorted(): insertion keeps it short; only the sorted permutation matters. */
  function Sort(s: seq<int>): seq<int> {
    if s == [] then [] else Insert(Sort(s[1..]), s[0])
  }

  lemma {:induction false} InsertKeeps(s: seq<int>, x: int)
    ensures multiset(Insert(s, x)) == multiset(s) + multiset{x}
    ensures |Insert(s, x)| == |s| + 1
    ensures Ascending(s) ==> Ascending(Insert(s, x))
  {
    if s == [] || x <= s[0] {
      assert Insert(s, x) == [x] + s;
    } else {
      InsertKeeps(s[1..], x);
      assert s == [s[0]] + s[1..];
      if Ascending(s) { InsertFront(s, x); }
    }
  }

  lemma InsertFront(s: seq<int>, x: int)
    requires s != [] && s[0] < x && Ascending(s)
    requires Ascending(Insert(s[1..], x)) && multiset(Insert(s[1..], x)) == multiset(s[1..]) + multiset{x}
    ensures Ascending([s[0]] + Insert(s[1..], x))
  {
    var rest := Insert(s[1..], x);
    forall i | 0 <= i < |rest| ensures s[0] <= rest[i] {
      assert rest[i] in multiset(rest);
      assert rest[i] == x || rest[i] in s[1..];
    }
  }

  lemma {:induction false} SortKeeps(s: seq<int>)
    ensures Ascending(Sort(s)) && multiset(Sort(s)) == multiset(s) && |Sort(s)| == |s|
  {
    if s != [] {
      SortKeeps(s[1..]);
      InsertKeeps(Sort(s[1..]), s[0]);
      assert s == [s[0]] + s[1..];
    }
  }

  lemma LastIsGreatest(a: seq<int>, b: seq<int>)
    requires Ascending(b) && multiset(a) == multiset(b) && a != [] && b != []
    ensures a[|a| - 1] <= b[|b| - 1]
  {
    var x := a[|a| - 1];
    assert x in multiset(a);
    assert x in b;
  }

  lemma DropLast(a: seq<int>)
    requires a != []
    ensures multiset(a[..|a| - 1]) == multiset(a) - multiset{a[|a| - 1]}
  {
    assert a == a[..|a| - 1] + [a[|a| - 1]];
  }

  lemma {:induction false} SortedUnique(a: seq<int>, b: seq<int>)
    requires Ascending(a) && Ascending(b) && multiset(a) == multiset(b) && |a| == |b|
    ensures a == b
    decreases |a|
  {
    if a != [] {
      LastIsGreatest(a, b);
      LastIsGreatest(b, a);
      DropLast(a);
      DropLast(b);
      SortedUnique(a[..|a| - 1], b[..|b| - 1]);
    }
  }

  /** The comparison of the sorted generations with 1..last decides contiguity. */
  lemma SortedRange(gens: seq<int>)
    requires gens != [] && forall g | g in gens :: 1 <= g
    ensures var s := Sort(gens);
      && s != [] && s[|s| - 1] >= 1
      && (s == UpTo(s[|s| - 1]) <==> Contiguous(gens))
      && (s == UpTo(s[|s| - 1]) ==> s[|s| - 1] == |gens|)
  {
    SortKeeps(gens);
    hide Sort;
    var s := Sort(gens);
    assert s[|s| - 1] in multiset(s);
    assert s[|s| - 1] in gens;
    if Contiguous(gens) {
      SortedUnique(s, UpTo(|gens|));
    }
  }

  // ---- histories ------------------------------------------------------------------------

  lemma {:induction false} GenerationsOf(receipts: seq<Receipt>, scope: Scope)
    ensures forall r | r in receipts && ScopeOf(r) == scope :: r.generation in Generations(receipts, scope)
    ensures Generations(receipts, scope) != [] <==> exists r :: r in receipts && ScopeOf(r) == scope
    ensures forall g | g in Generations(receipts, scope) ::
      exists r :: r in receipts && ScopeOf(r) == scope && r.generation == g
  {
    if receipts != [] {
      var n := |receipts| - 1;
      GenerationsOf(receipts[..n], scope);
      assert receipts == receipts[..n] + [receipts[n]];
      if ScopeOf(receipts[n]) == scope {
        assert receipts[n].generation in Generations(receipts, scope);
      }
    }
  }

  lemma GenerationsSnoc(receipts: seq<Receipt>, i: nat, scope: Scope)
    requires i < |receipts|
    ensures Generations(receipts[..i + 1], scope)
         == if ScopeOf(receipts[i]) == scope then Generations(receipts[..i], scope) + [receipts[i].generation]
            else Generations(receipts[..i], scope)
  {
    assert receipts[..i + 1][..i] == receipts[..i];
  }

  lemma ContiguousPositive(gens: seq<int>)
    requires Contiguous(gens)
    ensures forall g | g in gens :: 1 <= g
  {
    forall g | g in gens ensures 1 <= g {
      assert g in multiset(gens);
      assert g in UpTo(|gens|);
    }
  }

  /** byScope lists the generations of every scope that has receipts, and of no other. */
  ghost predicate Grouped(receipts: seq<Receipt>, byScope: map<Scope, seq<int>>) {
    && (forall s :: s in byScope <==> Generations(receipts, s) != [])
    && (forall s | s in byScope :: byScope[s] == Generations(receipts, s))
  }

  lemma GroupedSnoc(receipts: seq<Receipt>, i: nat, byScope: map<Scope, seq<int>>)
    requires i < |receipts| && Grouped(receipts[..i], byScope)
    ensures var scope := ScopeOf(receipts[i]);
      var before := if scope in byScope then byScope[scope] else [];
      Grouped(receipts[..i + 1], byScope[scope := before + [receipts[i].generation]])
  {
    forall s ensures Generations(receipts[..i + 1], s)
      == if ScopeOf(receipts[i]) == s then Generations(receipts[..i], s) + [receipts[i].generation]
         else Generations(receipts[..i], s)
    {
      GenerationsSnoc(receipts, i, s);
    }
    hide Generations;
  }

  method GroupByScope(receipts: seq<Receipt>) returns (ok: bool, byScope: map<Scope, seq<int>>)
    ensures ok <==> forall r | r in receipts :: 1 <= r.generation
    ensures ok ==> Grouped(receipts, byScope)
    ensures ok ==> forall s :: s in byScope <==> exists r :: r in receipts && ScopeOf(r) == s
  {
    byScope := map[];
    for i := 0 to |receipts|
      invariant forall j | 0 <= j < i :: 1 <= receipts[j].generation
      invariant Grouped(receipts[..i], byScope)
    {
      var r := receipts[i];
      if r.generation < 1 {
        return false, byScope;
      }
      GroupedSnoc(receipts, i, byScope);
      var before := if ScopeOf(r) in byScope then byScope[ScopeOf(r)] else [];
      byScope := byScope[ScopeOf(r) := before + [r.generation]];
    }
    assert receipts[..|receipts|] == receipts;
    forall s ensures Generations(receipts, s) != [] <==> exists r :: r in receipts && ScopeOf(r) == s {
      GenerationsOf(receipts, s);
    }
    ok := true;
  }

  method IndexCurrent(current: seq<Current>) returns (ok: bool, index: map<Scope, Current>)
    ensures ok <==> forall i, j | 0 <= i < j < |current| :: CurrentScope(current[i]) != CurrentScope(current[j])
    ensures ok ==> forall s :: s in index <==> exists c :: c in current && CurrentScope(c) == s
    ensures ok ==> forall s | s in index :: index[s] in current && CurrentScope(index[s]) == s
  {
    index := map[];
    for n := 0 to |current|
      invariant forall i, j | 0 <= i < j < n :: CurrentScope(current[i]) != CurrentScope(current[j])
      invariant forall s | s in index :: index[s] in current[..n] && CurrentScope(index[s]) == s
      invariant forall i | 0 <= i < n :: CurrentScope(current[i]) in index
    {
      if CurrentScope(current[n]) in index {
        var other := index[CurrentScope(current[n])];
        var i :| 0 <= i < n && current[i] == other;
        assert CurrentScope(current[i]) == CurrentScope(current[n]);
        return false, index;
      }
      index := index[CurrentScope(current[n]) := current[n]];
    }
    ok := true;
  }

  /** One scope of _check_generations. */
  predicate ScopeOk(gens: seq<int>, index: map<Scope, Current>, scope: Scope) {
    var ordered := Sort(gens);
    ordered != [] && var last := ordered[|ordered| - 1];
    last >= 1 && ordered == UpTo(last) && scope in index && index[scope].generation == last
  }

  /** _check_generations. */
  method CheckGenerations(receipts: seq<Receipt>, current: seq<Current>) returns (ok: bool)
    ensures ok <==> GenerationsOk(receipts, current)
  {
    var positive, byScope := GroupByScope(receipts);
    if !positive {
      NotPositive(receipts, current);
      return false;
    }
    var unique, index := IndexCurrent(current);
    if !unique {
      return false;
    }
    var scopesOk := CheckScopes(byScope, index);
    var noStrays := CheckStrays(current, byScope.Keys);
    Decides(receipts, current, byScope, index);
    ok := scopesOk && noStrays;
    hide GenerationsOk, ScopeOk, Generations;
  }

  method CheckScopes(byScope: map<Scope, seq<int>>, index: map<Scope, Current>) returns (ok: bool)
    ensures ok <==> forall s | s in byScope :: ScopeOk(byScope[s], index, s)
  {
    hide ScopeOk;
    ok := true;
    var todo := byScope.Keys;
    while todo != {}
      invariant todo <= byScope.Keys
      invariant ok <==> forall s | s in byScope && s !in todo :: ScopeOk(byScope[s], index, s)
    {
      var scope :| scope in todo;
      todo := todo - {scope};
      ok := ok && ScopeOk(byScope[scope], index, scope);
    }
  }

  method CheckStrays(current: seq<Current>, scopes: set<Scope>) returns (ok: bool)
    ensures ok <==> forall j | 0 <= j < |current| :: CurrentScope(current[j]) in scopes
  {
    ok := true;
    for i := 0 to |current|
      invariant ok <==> forall j | 0 <= j < i :: CurrentScope(current[j]) in scopes
    {
      ok := ok && CurrentScope(current[i]) in scopes;
    }
  }

  lemma NotPositive(receipts: seq<Receipt>, current: seq<Current>)
    requires exists r :: r in receipts && r.generation < 1
    ensures !GenerationsOk(receipts, current)
  {
    var r :| r in receipts && r.generation < 1;
    var gens := Generations(receipts, ScopeOf(r));
    GenerationsOf(receipts, ScopeOf(r));
    if Contiguous(gens) { ContiguousPositive(gens); }
  }

  lemma Decides(receipts: seq<Receipt>, current: seq<Current>, byScope: map<Scope, seq<int>>,
                index: map<Scope, Current>)
    requires forall r | r in receipts :: 1 <= r.generation
    requires forall s :: s in byScope <==> exists r :: r in receipts && ScopeOf(r) == s
    requires forall s | s in byScope :: byScope[s] != [] && byScope[s] == Generations(receipts, s)
    requires forall i, j | 0 <= i < j < |current| :: CurrentScope(current[i]) != CurrentScope(current[j])
    requires forall s :: s in index <==> exists c :: c in current && CurrentScope(c) == s
    requires forall s | s in index :: index[s] in current && CurrentScope(index[s]) == s
    ensures GenerationsOk(receipts, current) <==>
      && (forall s | s in byScope :: ScopeOk(byScope[s], index, s))
      && (forall j | 0 <= j < |current| :: CurrentScope(current[j]) in byScope)
  {
    hide ScopeOk, Contiguous, NamesCurrent, Generations;
    forall s | s in byScope
      ensures ScopeOk(byScope[s], index, s) <==> Contiguous(byScope[s]) && NamesCurrent(current, s, |byScope[s]|)
    {
      ScopeDecided(receipts, current, byScope[s], index, s);
    }
    assert forall r | r in receipts :: ScopeOf(r) in byScope;
  }

  lemma ScopeDecided(receipts: seq<Receipt>, current: seq<Current>, gens: seq<int>, index: map<Scope, Current>,
                     s: Scope)
    requires gens == Generations(receipts, s) && gens != [] && forall r | r in receipts :: 1 <= r.generation
    requires forall i, j | 0 <= i < j < |current| :: CurrentScope(current[i]) != CurrentScope(current[j])
    requires s in index <==> exists c :: c in current && CurrentScope(c) == s
    requires s in index ==> index[s] in current && CurrentScope(index[s]) == s
    ensures ScopeOk(gens, index, s) <==> Contiguous(gens) && NamesCurrent(current, s, |gens|)
  {
    GenerationsOf(receipts, s);
    SortedRange(gens);
    if s in index {
      var i :| 0 <= i < |current| && current[i] == index[s];
      if NamesCurrent(current, s, |gens|) {
        var j :| 0 <= j < |current| && CurrentScope(current[j]) == s && current[j].generation == |gens|;
        assert i == j;
      }
    } else {
      assert forall j | 0 <= j < |current| :: current[j] in current;
    }
  }

  // ---- the journal's closure ------------------------------------------------------------

  method CheckJournal(k: Codec, journal: seq<Row>, digests: set<string>) returns (ok: bool)
    ensures ok <==> JournalClosed(k, journal, digests)
  {
    ok := true;
    for i := 0 to |journal|
      invariant ok <==> forall j | 0 <= j < i :: JournalRowClosed(k, journal[j], digests)
    {
      ok := ok && JournalRowClosed(k, journal[i], digests);
    }
  }

  // ---- identities -----------------------------------------------------------------------

  /** _check_identity_uniqueness. */
  method CheckUnique(rows: seq<Row>) returns (ok: bool)
    ensures ok <==> DistinctRows(rows)
  {
    var seen: set<RowId> := {};
    for n := 0 to |rows|
      invariant seen == set i | 0 <= i < n :: IdOf(rows[i])
      invariant forall i | 0 <= i < n :: Identified(IdOf(rows[i]))
      invariant forall i, j | 0 <= i < j < n :: IdOf(rows[i]) != IdOf(rows[j])
    {
      var identity := IdOf(rows[n]);
      if !Identified(identity) || identity in seen {
        return false;
      }
      seen := seen + {identity};
    }
    ok := true;
  }

  method CheckIdentities(d: Descriptor) returns (ok: bool)
    ensures ok <==> UniqueIdentities(d)
  {
    var outboxOk := CheckUnique(d.outbox);
    var journalOk := CheckUnique(d.journal);
    ok := outboxOk && journalOk;
  }

  method CheckRows(d: Descriptor) returns (ok: bool)
    ensures ok <==> RowsAgree(d)
  {
    var generationsOk := CheckGenerations(d.receipts, d.current);
    var identitiesOk := CheckIdentities(d);
    var known: set<Identity> := set r | r in d.receipts :: ReceiptIdentity(r);
    var currentOk := true;
    for i := 0 to |d.current|
      invariant currentOk <==> forall j | 0 <= j < i :: CurrentIdentity(d.current[j]) in known
    {
      currentOk := currentOk && CurrentIdentity(d.current[i]) in known;
    }
    ok := generationsOk && identitiesOk && currentOk;
    hide GenerationsOk, UniqueIdentities;
    assert currentOk <==> forall c | c in d.current :: exists r ::
      r in d.receipts && ReceiptIdentity(r) == CurrentIdentity(c);
  }
}
