/** The exhaustive resolver: every choice of one version per package, searched and compared. */
module Resolver {
  import opened ResolverGraph

  type Catalog = map<Name, seq<Row>>
  /** A solution lists the active packages and their versions in name order. */
  type Solution = seq<(Name, int)>

  ghost predicate SortedNames(names: seq<Name>, catalog: Catalog) {
    && (forall i, j | 0 <= i < j < |names| :: names[i] < names[j])
    && (forall n :: n in names <==> n in catalog)
  }

  // ---- the product of the version lists -------------------------------------------------

  function PushAll(x: Row, tails: seq<seq<Row>>): (r: seq<seq<Row>>)
    ensures |r| == |tails| && forall i | 0 <= i < |r| :: r[i] == [x] + tails[i]
  {
    if tails == [] then [] else [[x] + tails[0]] + PushAll(x, tails[1..])
  }

  function PushEach(xs: seq<Row>, tails: seq<seq<Row>>): seq<seq<Row>> {
    if xs == [] then [] else PushAll(xs[0], tails) + PushEach(xs[1..], tails)
  }

  /** itertools.product: the last list varies fastest. */
  function Product(lists: seq<seq<Row>>): seq<seq<Row>> {
    if lists == [] then [[]] else PushEach(lists[0], Product(lists[1..]))
  }

  ghost predicate Picks(lists: seq<seq<Row>>, c: seq<Row>) {
    |c| == |lists| && forall i | 0 <= i < |c| :: c[i] in lists[i]
  }

  lemma {:induction false} PushEachExact(xs: seq<Row>, tails: seq<seq<Row>>, c: seq<Row>)
    ensures c in PushEach(xs, tails) <==> c != [] && c[0] in xs && c[1..] in tails
  {
    if xs != [] {
      PushEachExact(xs[1..], tails, c);
      if c in PushAll(xs[0], tails) {
        var i :| 0 <= i < |tails| && c == [xs[0]] + tails[i];
        assert c[1..] == tails[i];
      }
      if c != [] && c[0] == xs[0] && c[1..] in tails {
        var i :| 0 <= i < |tails| && tails[i] == c[1..];
        assert c == [xs[0]] + tails[i];
        assert PushAll(xs[0], tails)[i] == c;
      }
    }
  }

  /** The product holds exactly the sequences that take one element of each list. */
  lemma {:induction false} ProductExact(lists: seq<seq<Row>>, c: seq<Row>)
    ensures c in Product(lists) <==> Picks(lists, c)
  {
    if lists != [] {
      PushEachExact(lists[0], Product(lists[1..]), c);
      if c != [] {
        ProductExact(lists[1..], c[1..]);
        if Picks(lists, c) {
          assert Picks(lists[1..], c[1..]);
        }
        if c[0] in lists[0] && Picks(lists[1..], c[1..]) {
          forall i | 0 <= i < |c| ensures c[i] in lists[i] {
            if i > 0 { assert c[1..][i - 1] in lists[1..][i - 1]; }
          }
        }
      }
    }
  }

  // ---- selections and solutions ---------------------------------------------------------

  ghost predicate IsChoice(catalog: Catalog, sel: Selection) {
    sel.Keys == catalog.Keys && forall n | n in sel :: sel[n] in catalog[n]
  }

  /** The listing of the packages reachable in a selection. */
  ghost predicate Lists(sel: Selection, roots: seq<Dep>, sol: Solution) {
    && (forall i, j | 0 <= i < j < |sol| :: sol[i].0 < sol[j].0)
    && (forall i | 0 <= i < |sol| :: sol[i].0 in sel && sol[i].1 == sel[sol[i].0].version)
    && (forall n :: Reachable(sel, roots, n) <==> exists i :: 0 <= i < |sol| && sol[i].0 == n)
  }

  ghost predicate SolvedBy(catalog: Catalog, roots: seq<Dep>, sel: Selection, sol: Solution) {
    IsChoice(catalog, sel) && Consistent(sel, roots) && Lists(sel, roots, sol)
  }

  ghost predicate IsSolution(catalog: Catalog, roots: seq<Dep>, sol: Solution) {
    exists sel :: SolvedBy(catalog, roots, sel, sol)
  }

  /** Two listings of the same selection are the same sequence. */
  lemma {:induction false} ListingUnique(a: Solution, b: Solution)
    requires forall i, j | 0 <= i < j < |a| :: a[i].0 < a[j].0
    requires forall i, j | 0 <= i < j < |b| :: b[i].0 < b[j].0
    requires forall x :: x in a <==> x in b
    ensures a == b
    decreases |a|
  {
    assert b == [] || b[0] in b;
    if a != [] {
      assert a[0] in b && b != [];
      assert b[0] in a;
      assert a[0] == b[0];
      forall x ensures x in a[1..] <==> x in b[1..] {
        if x in a[1..] {
          var i :| 1 <= i < |a| && a[i] == x;
          assert x in b && x != b[0];
        }
        if x in b[1..] {
          var i :| 1 <= i < |b| && b[i] == x;
          assert x in a && x != a[0];
        }
      }
      ListingUnique(a[1..], b[1..]);
    }
  }

  lemma ListsSame(sel: Selection, roots: seq<Dep>, a: Solution, b: Solution)
    requires Lists(sel, roots, a) && Lists(sel, roots, b)
    ensures a == b
  {
    ListsWithin(sel, roots, a, b);
    ListsWithin(sel, roots, b, a);
    ListingUnique(a, b);
  }

  lemma ListsWithin(sel: Selection, roots: seq<Dep>, a: Solution, b: Solution)
    requires Lists(sel, roots, a) && Lists(sel, roots, b)
    ensures forall x | x in a :: x in b
  {
    forall x | x in a ensures x in b {
      var i :| 0 <= i < |a| && a[i] == x;
      assert Reachable(sel, roots, a[i].0);
      var j :| 0 <= j < |b| && b[j].0 == a[i].0;
      assert b[j] == x;
    }
  }

  // ---- the comparison key ---------------------------------------------------------------

  predicate PairLess(a: (Name, int), b: (Name, int)) { a.0 < b.0 || (a.0 == b.0 && a.1 < b.1) }

  /** Tuple order on the items of two solutions. */
  predicate KeyLe(a: Solution, b: Solution) {
    if a == [] then true
    else if b == [] then false
    else if a[0] == b[0] then KeyLe(a[1..], b[1..])
    else PairLess(a[0], b[0])
  }

  lemma {:induction false} KeyTotal(a: Solution, b: Solution)
    ensures KeyLe(a, b) || KeyLe(b, a)
  {
    if a != [] && b != [] && a[0] == b[0] { KeyTotal(a[1..], b[1..]); }
  }

  lemma {:induction false} KeyTransitive(a: Solution, b: Solution, c: Solution)
    requires KeyLe(a, b) && KeyLe(b, c)
    ensures KeyLe(a, c)
  {
    if a != [] && b != [] && c != [] && a[0] == b[0] && b[0] == c[0] {
      KeyTransitive(a[1..], b[1..], c[1..]);
    }
  }

  // ---- the resolver ---------------------------------------------------------------------

  datatype Outcome = Resolved(rows: Solution) | Unsatisfiable | UniverseTooLarge

  method Listing(names: seq<Name>, sel: Selection, active: set<Name>, ghost roots: seq<Dep>) returns (sol: Solution)
    requires forall i, j | 0 <= i < j < |names| :: names[i] < names[j]
    requires forall n :: n in names <==> n in sel
    requires forall n :: n in active <==> Reachable(sel, roots, n)
    requires active <= sel.Keys
    ensures Lists(sel, roots, sol)
  {
    sol := [];
    hide ListedUpTo;
    NothingListed(names, sel, active);
    for k := 0 to |names|
      invariant ListedUpTo(names, k, sel, active, sol)
    {
      assert names[k] in names;
      ListedStep(names, k, sel, active, sol);
      if names[k] in active {
        sol := sol + [(names[k], sel[names[k]].version)];
      }
    }
    AllListed(names, sel, active, sol, roots);
  }

  /** sol has the active names among the first k, in order, at their selected versions. */
  ghost predicate ListedUpTo(names: seq<Name>, k: nat, sel: Selection, active: set<Name>, sol: Solution)
    requires k <= |names| && active <= sel.Keys
  {
    && (forall i, j | 0 <= i < j < |sol| :: sol[i].0 < sol[j].0)
    && (forall i | 0 <= i < |sol| :: sol[i].0 in names[..k] && sol[i].0 in active && sol[i].1 == sel[sol[i].0].version)
    && (forall n | n in names[..k] && n in active :: exists i :: 0 <= i < |sol| && sol[i].0 == n)
  }

  lemma NothingListed(names: seq<Name>, sel: Selection, active: set<Name>)
    requires active <= sel.Keys
    ensures ListedUpTo(names, 0, sel, active, [])
  {
  }

  lemma ListedStep(names: seq<Name>, k: nat, sel: Selection, active: set<Name>, sol: Solution)
    requires k < |names| && active <= sel.Keys && ListedUpTo(names, k, sel, active, sol) && names[k] in sel
    requires forall i, j | 0 <= i < j < |names| :: names[i] < names[j]
    ensures ListedUpTo(names, k + 1, sel, active,
                       if names[k] in active then sol + [(names[k], sel[names[k]].version)] else sol)
  {
    assert names[..k + 1] == names[..k] + [names[k]];
    if names[k] in active {
      var more := sol + [(names[k], sel[names[k]].version)];
      assert more[|sol|].0 == names[k];
      forall i, j | 0 <= i < j < |more| ensures more[i].0 < more[j].0 {
        assert sol[i].0 in names[..k];
      }
      forall n | n in names[..k] && n in active ensures exists i :: 0 <= i < |more| && more[i].0 == n {
        var i :| 0 <= i < |sol| && sol[i].0 == n;
        assert more[i].0 == n;
      }
    }
  }

  lemma AllListed(names: seq<Name>, sel: Selection, active: set<Name>, sol: Solution, roots: seq<Dep>)
    requires active <= sel.Keys && ListedUpTo(names, |names|, sel, active, sol)
    requires forall n :: n in names <==> n in sel
    requires forall n :: n in active <==> Reachable(sel, roots, n)
    ensures Lists(sel, roots, sol)
  {
  }

  function Zip(names: seq<Name>, c: seq<Row>): (sel: Selection)
    requires |names| == |c|
  {
    if names == [] then map[] else Zip(names[..|names| - 1], c[..|c| - 1])[names[|names| - 1] := c[|c| - 1]]
  }

  lemma {:induction false} ZipExact(names: seq<Name>, c: seq<Row>)
    requires |names| == |c|
    requires forall i, j | 0 <= i < j < |names| :: names[i] < names[j]
    ensures forall n :: n in Zip(names, c) <==> n in names
    ensures forall i | 0 <= i < |names| :: names[i] in Zip(names, c) && Zip(names, c)[names[i]] == c[i]
  {
    if names != [] {
      var k := |names| - 1;
      ZipExact(names[..k], c[..k]);
      assert names == names[..k] + [names[k]];
    }
  }

  /** Choosing a row per listed name and choosing a selection are the same thing. */
  lemma ZipIsChoice(names: seq<Name>, catalog: Catalog, lists: seq<seq<Row>>, c: seq<Row>)
    requires SortedNames(names, catalog) && |lists| == |names|
    requires forall i | 0 <= i < |names| :: lists[i] == catalog[names[i]]
    requires Picks(lists, c)
    ensures IsChoice(catalog, Zip(names, c))
  {
    ZipExact(names, c);
    var sel := Zip(names, c);
    forall n | n in sel ensures sel[n] in catalog[n] {
      var i :| 0 <= i < |names| && names[i] == n;
      assert c[i] in lists[i];
    }
  }

  lemma ChoiceIsZip(names: seq<Name>, catalog: Catalog, lists: seq<seq<Row>>, sel: Selection) returns (c: seq<Row>)
    requires SortedNames(names, catalog) && |lists| == |names|
    requires forall i | 0 <= i < |names| :: lists[i] == catalog[names[i]]
    requires IsChoice(catalog, sel)
    ensures c in Product(lists) && |c| == |names| && Zip(names, c) == sel
  {
    assert forall i | 0 <= i < |names| :: names[i] in names;
    c := seq(|names|, i requires 0 <= i < |names| => sel[names[i]]);
    assert Picks(lists, c);
    ProductExact(lists, c);
    ZipExact(names, c);
    forall n | n in sel ensures n in Zip(names, c) && Zip(names, c)[n] == sel[n] {
      var i :| 0 <= i < |names| && names[i] == n;
    }
  }

  /**
   reference_resolve. The answer is a solution with the greatest key among all solutions of all
   selections, and the resolver gives up exactly when no selection is consistent.
   */
  method ReferenceResolve(names: seq<Name>, catalog: Catalog, roots: seq<Dep>) returns (r: Outcome)
    requires SortedNames(names, catalog)
    ensures r.UniverseTooLarge? <==> |names| > 7
    ensures r.Resolved? ==>
      && IsSolution(catalog, roots, r.rows)
      && forall sol | IsSolution(catalog, roots, sol) :: KeyLe(sol, r.rows)
    ensures |names| <= 7 ==>
      (r.Unsatisfiable? <==> !exists sel :: IsChoice(catalog, sel) && Consistent(sel, roots))
  {
    if |names| > 7 {
      return UniverseTooLarge;
    }
    var solutions := AllSolutions(names, catalog, roots);
    if solutions == [] {
      return Unsatisfiable;
    }
    var best := solutions[0];
    KeyTotal(best, best);
    for k := 1 to |solutions|
      invariant best in solutions
      invariant forall j | 0 <= j < k :: KeyLe(solutions[j], best)
    {
      if !KeyLe(solutions[k], best) {
        KeyTotal(solutions[k], best);
        KeyTotal(solutions[k], solutions[k]);
        forall j | 0 <= j < k ensures KeyLe(solutions[j], solutions[k]) {
          KeyTransitive(solutions[j], best, solutions[k]);
        }
        best := solutions[k];
      }
    }
    return Resolved(best);
  }

  ghost predicate Covered(roots: seq<Dep>, sel: Selection, solutions: seq<Solution>) {
    Consistent(sel, roots) ==> exists sol :: sol in solutions && Lists(sel, roots, sol)
  }

  /** Searches one selection of the product: its listing if it is consistent, otherwise nothing. */
  method SolveChoice(names: seq<Name>, catalog: Catalog, selected: Selection, roots: seq<Dep>)
    returns (found: seq<Solution>)
    requires SortedNames(names, catalog) && IsChoice(catalog, selected)
    ensures Covered(roots, selected, found)
    ensures forall sol | sol in found :: IsSolution(catalog, roots, sol)
  {
    var search := new Search(selected, roots);
    var ok := search.Solve();
    found := [];
    if ok {
      ActiveSelected(selected, roots, search.active);
      var sol := Listing(names, selected, search.active, roots);
      assert SolvedBy(catalog, roots, selected, sol);
      found := [sol];
      assert sol in found;
    }
  }

  /** One listing per consistent selection of the product, and no others. */
  method AllSolutions(names: seq<Name>, catalog: Catalog, roots: seq<Dep>) returns (solutions: seq<Solution>)
    requires SortedNames(names, catalog)
    ensures forall sol :: sol in solutions <==> IsSolution(catalog, roots, sol)
    ensures forall sel | IsChoice(catalog, sel) && Consistent(sel, roots) :: solutions != []
  {
    assert forall i | 0 <= i < |names| :: names[i] in names;
    var lists := seq(|names|, i requires 0 <= i < |names| => catalog[names[i]]);
    var product := Product(lists);
    forall i | 0 <= i < |product|
      ensures |product[i]| == |names| && IsChoice(catalog, Zip(names, product[i]))
    {
      ProductExact(lists, product[i]);
      ZipIsChoice(names, catalog, lists, product[i]);
    }
    solutions := SearchAll(names, catalog, product, roots);
    forall sel | IsChoice(catalog, sel) ensures Covered(roots, sel, solutions) {
      var c := ChoiceIsZip(names, catalog, lists, sel);
    }
    CoveredIsComplete(catalog, roots, solutions);
  }

  lemma CoveredIsComplete(catalog: Catalog, roots: seq<Dep>, solutions: seq<Solution>)
    requires forall sel | IsChoice(catalog, sel) :: Covered(roots, sel, solutions)
    ensures forall sol | IsSolution(catalog, roots, sol) :: sol in solutions
    ensures forall sel | IsChoice(catalog, sel) && Consistent(sel, roots) :: solutions != []
  {
    forall sol | IsSolution(catalog, roots, sol) ensures sol in solutions {
      var sel :| SolvedBy(catalog, roots, sel, sol);
      var sol' :| sol' in solutions && Lists(sel, roots, sol');
      ListsSame(sel, roots, sol, sol');
    }
  }

  method SearchAll(names: seq<Name>, catalog: Catalog, product: seq<seq<Row>>, roots: seq<Dep>)
    returns (solutions: seq<Solution>)
    requires SortedNames(names, catalog)
    requires forall i | 0 <= i < |product| :: |product[i]| == |names| && IsChoice(catalog, Zip(names, product[i]))
    ensures forall sol | sol in solutions :: IsSolution(catalog, roots, sol)
    ensures forall i | 0 <= i < |product| :: Covered(roots, Zip(names, product[i]), solutions)
  {
    solutions := [];
    for k := 0 to |product|
      invariant forall sol | sol in solutions :: IsSolution(catalog, roots, sol)
      invariant forall i | 0 <= i < k :: Covered(roots, Zip(names, product[i]), solutions)
    {
      var found := SolveChoice(names, catalog, Zip(names, product[k]), roots);
      solutions := solutions + found;
    }
  }

  lemma ActiveSelected(sel: Selection, roots: seq<Dep>, active: set<Name>)
    requires forall n :: n in active <==> Reachable(sel, roots, n)
    ensures active <= sel.Keys
  {
    forall n | n in active ensures n in sel {
      var p :| RootPath(sel, roots, p) && Last(p) == n;
      PathInSelection(sel, p);
    }
  }
}
