/** Selections of package versions, what it means for one to satisfy its roots, and the search. */
module ResolverGraph {
  import opened SetSizes
  /** Package names, numbered in sorted order. */
  type Name = nat

  datatype Bound = Bound(min: int, max: int)
  datatype Dep = Dep(name: Name, bound: Bound)
  datatype Row = Row(version: int, deps: seq<Dep>)
  type Selection = map<Name, Row>

  predicate Meets(sel: Selection, d: Dep) {
    d.name in sel && d.bound.min <= sel[d.name].version < d.bound.max
  }

  ghost predicate IsRoot(roots: seq<Dep>, n: Name) { exists d :: d in roots && d.name == n }

  ghost predicate DependsOn(sel: Selection, a: Name, b: Name) {
    a in sel && b in sel && exists d :: d in sel[a].deps && d.name == b
  }

  ghost predicate IsPath(sel: Selection, p: seq<Name>) {
    && p != [] && p[0] in sel
    && forall i | 0 <= i < |p| - 1 :: DependsOn(sel, p[i], p[i + 1])
  }

  function Last(p: seq<Name>): Name
    requires p != []
  {
    p[|p| - 1]
  }

  ghost predicate RootPath(sel: Selection, roots: seq<Dep>, p: seq<Name>) {
    IsPath(sel, p) && IsRoot(roots, p[0])
  }

  ghost predicate Reachable(sel: Selection, roots: seq<Dep>, n: Name) {
    exists p :: RootPath(sel, roots, p) && Last(p) == n
  }

  ghost predicate Cycle(sel: Selection, p: seq<Name>) {
    IsPath(sel, p) && |p| >= 2 && p[0] == Last(p)
  }

  /** Every root and every reachable dependency bound is met, and no reachable package is on a cycle. */
  ghost predicate Consistent(sel: Selection, roots: seq<Dep>) {
    && (forall d | d in roots :: Meets(sel, d))
    && (forall n, d | Reachable(sel, roots, n) && n in sel && d in sel[n].deps :: Meets(sel, d))
    && (forall p | Cycle(sel, p) :: !Reachable(sel, roots, p[0]))
  }

  lemma {:induction false} PathInSelection(sel: Selection, p: seq<Name>)
    requires IsPath(sel, p)
    ensures forall i | 0 <= i < |p| :: p[i] in sel
  {
    forall i | 0 <= i < |p| ensures p[i] in sel {
      if i > 0 { assert DependsOn(sel, p[i - 1], p[i]); }
    }
  }

  /** A repeated name on a root path closes a reachable cycle. */
  lemma RepeatIsCycle(sel: Selection, roots: seq<Dep>, p: seq<Name>, i: nat)
    requires RootPath(sel, roots, p) && i < |p| - 1 && p[i] == Last(p)
    ensures !Consistent(sel, roots)
  {
    var cyc := p[i..];
    PathInSelection(sel, p);
    assert IsPath(sel, cyc) by {
      forall j | 0 <= j < |cyc| - 1 ensures DependsOn(sel, cyc[j], cyc[j + 1]) {
        assert DependsOn(sel, p[i + j], p[i + j + 1]);
      }
    }
    assert Cycle(sel, cyc);
    var prefix := p[..i + 1];
    assert RootPath(sel, roots, prefix) by {
      forall j | 0 <= j < |prefix| - 1 ensures DependsOn(sel, prefix[j], prefix[j + 1]) {
        assert DependsOn(sel, p[j], p[j + 1]);
      }
    }
    assert Last(prefix) == cyc[0];
  }

  // ---- the finishing order the search builds --------------------------------------------

  ghost function Elements(s: seq<Name>): set<Name> { set x | x in s }

  /** Each package comes after all it depends on, with every bound met. */
  ghost predicate Topological(sel: Selection, order: seq<Name>) {
    forall i | 0 <= i < |order| ::
      && order[i] in sel
      && (forall d | d in sel[order[i]].deps :: Meets(sel, d) && d.name in order[..i])
  }

  ghost predicate Distinct(order: seq<Name>) {
    forall i, j | 0 <= i < j < |order| :: order[i] != order[j]
  }

  lemma TopologicalSnoc(sel: Selection, order: seq<Name>, n: Name)
    requires Topological(sel, order) && n in sel
    requires forall d | d in sel[n].deps :: Meets(sel, d) && d.name in order
    ensures Topological(sel, order + [n])
  {
    forall i | 0 <= i < |order + [n]|
      ensures forall d | d in sel[(order + [n])[i]].deps :: Meets(sel, d) && d.name in (order + [n])[..i]
    {
      if i < |order| {
        assert (order + [n])[..i] == order[..i];
      } else {
        assert (order + [n])[..i] == order;
      }
    }
  }

  /** Along a path inside a topological order, positions strictly fall. */
  lemma {:induction false} PathFalls(sel: Selection, order: seq<Name>, p: seq<Name>, i: nat) returns (j: nat)
    requires Topological(sel, order) && Distinct(order) && IsPath(sel, p)
    requires i < |order| && order[i] == p[0]
    ensures j < |order| && order[j] == Last(p)
    ensures |p| >= 2 ==> j < i
    decreases |p|
  {
    if |p| == 1 {
      j := i;
    } else {
      assert DependsOn(sel, p[0], p[1]);
      assert p[1] in order[..i];
      var k :| 0 <= k < i && order[k] == p[1];
      assert IsPath(sel, p[1..]) by {
        forall m | 0 <= m < |p[1..]| - 1 ensures DependsOn(sel, p[1..][m], p[1..][m + 1]) {
          assert DependsOn(sel, p[m + 1], p[m + 2]);
        }
      }
      j := PathFalls(sel, order, p[1..], k);
    }
  }

  /** A topological order over the roots covers everything reachable and proves consistency. */
  lemma OrderProves(sel: Selection, roots: seq<Dep>, order: seq<Name>)
    requires Topological(sel, order) && Distinct(order)
    requires forall d | d in roots :: Meets(sel, d) && d.name in order
    ensures Consistent(sel, roots)
    ensures forall n | Reachable(sel, roots, n) :: n in order
  {
    forall n | Reachable(sel, roots, n) ensures n in order {
      var p :| RootPath(sel, roots, p) && Last(p) == n;
      var i :| 0 <= i < |order| && order[i] == p[0];
      var j := PathFalls(sel, order, p, i);
    }
    forall p | Cycle(sel, p) ensures !Reachable(sel, roots, p[0]) {
      if Reachable(sel, roots, p[0]) {
        var i :| 0 <= i < |order| && order[i] == p[0];
        var j := PathFalls(sel, order, p, i);
      }
    }
  }

  // ---- the depth-first search -----------------------------------------------------------

  /** The stack of packages being visited, on the way to the one named by d. */
  ghost predicate OnStack(sel: Selection, roots: seq<Dep>, stack: seq<Name>, d: Dep) {
    if stack == [] then d in roots
    else RootPath(sel, roots, stack) && Last(stack) in sel && d in sel[Last(stack)].deps
  }

  /** Going on to a selected package keeps a root path. */
  lemma PushPath(sel: Selection, roots: seq<Dep>, stack: seq<Name>, d: Dep)
    requires OnStack(sel, roots, stack, d) && d.name in sel
    ensures RootPath(sel, roots, stack + [d.name]) && Reachable(sel, roots, d.name)
  {
  }

  /** An unmet bound on the way refutes the selection. */
  lemma UnmetRefutes(sel: Selection, roots: seq<Dep>, stack: seq<Name>, d: Dep)
    requires OnStack(sel, roots, stack, d) && !Meets(sel, d)
    ensures !Consistent(sel, roots)
  {
  }

  class Search {
    const sel: Selection
    const roots: seq<Dep>
    var active: set<Name>
    var visiting: set<Name>
    /** The active packages in the order their visits finished. */
    ghost var order: seq<Name>

    ghost predicate Valid()
      reads this
    {
      && active == Elements(order) && Distinct(order) && Topological(sel, order)
      && active !! visiting && visiting <= sel.Keys
      && (forall n | n in order :: Reachable(sel, roots, n))
    }

    constructor (sel: Selection, roots: seq<Dep>)
      ensures Valid() && this.sel == sel && this.roots == roots && active == {} && visiting == {}
    {
      this.sel, this.roots := sel, roots;
      active, visiting, order := {}, {}, [];
    }

    method Visit(d: Dep, ghost stack: seq<Name>) returns (ok: bool)
      requires Valid() && visiting == Elements(stack) && OnStack(sel, roots, stack, d)
      modifies this
      ensures ok ==> Valid() && visiting == old(visiting) && old(active) <= active
      ensures ok ==> Meets(sel, d) && d.name in active
      ensures !ok ==> !Consistent(sel, roots)
      decreases |sel.Keys - visiting|, 0
    {
      if d.name !in sel || !(d.bound.min <= sel[d.name].version < d.bound.max) {
        UnmetRefutes(sel, roots, stack, d);
        return false;
      }
      PushPath(sel, roots, stack, d);
      if d.name in visiting {
        ghost var i :| 0 <= i < |stack| && stack[i] == d.name;
        RepeatIsCycle(sel, roots, stack + [d.name], i);
        return false;
      }
      if d.name in active {
        return true;
      }
      SmallerSet(sel.Keys - (visiting + {d.name}), sel.Keys - visiting);
      visiting := visiting + {d.name};
      ok := VisitDeps(d.name, stack + [d.name]);
      if ok {
        Finish(d.name);
      }
    }

    /** Visits all dependencies of the package on top of the stack, stopping at the first failure. */
    method VisitDeps(name: Name, ghost stack: seq<Name>) returns (ok: bool)
      requires Valid() && visiting == Elements(stack) && name in sel
      requires RootPath(sel, roots, stack) && Last(stack) == name
      modifies this
      ensures ok ==> Valid() && visiting == old(visiting) && old(active) <= active
      ensures ok ==> forall d | d in sel[name].deps :: Meets(sel, d) && d.name in active
      ensures !ok ==> !Consistent(sel, roots)
      decreases |sel.Keys - visiting|, 1
    {
      var deps := sel[name].deps;
      var i := 0;
      while i < |deps|
        invariant 0 <= i <= |deps|
        invariant Valid() && visiting == old(visiting) && old(active) <= active
        invariant forall j | 0 <= j < i :: Meets(sel, deps[j]) && deps[j].name in active
      {
        ok := Visit(deps[i], stack);
        if !ok {
          return false;
        }
        i := i + 1;
      }
      return true;
    }

    /** The visit is over: the package moves from visiting to active. */
    method Finish(name: Name)
      requires Valid() && name in visiting && name in sel && Reachable(sel, roots, name)
      requires forall d | d in sel[name].deps :: Meets(sel, d) && d.name in active
      modifies this
      ensures Valid() && visiting == old(visiting) - {name} && active == old(active) + {name}
    {
      TopologicalSnoc(sel, order, name);
      visiting := visiting - {name};
      active := active + {name};
      order := order + [name];
    }

    /** The search succeeds exactly on consistent selections, and leaves the reachable set active. */
    method Solve() returns (ok: bool)
      requires Valid() && active == {} && visiting == {}
      modifies this
      ensures ok <==> Consistent(sel, roots)
      ensures ok ==> forall n :: n in active <==> Reachable(sel, roots, n)
    {
      var i := 0;
      while i < |roots|
        invariant 0 <= i <= |roots| && Valid() && visiting == {}
        invariant forall j | 0 <= j < i :: Meets(sel, roots[j]) && roots[j].name in active
      {
        ok := Visit(roots[i], []);
        if !ok {
          return false;
        }
        i := i + 1;
      }
      OrderProves(sel, roots, order);
      return true;
    }
  }

  lemma SmallerSet(a: set<Name>, b: set<Name>)
    requires a < b
    ensures |a| < |b|
  {
    var x :| x in b && x !in a;
    assert a <= b - {x};
    SubsetSize(a, b - {x});
  }
}
