/** Unresolved failures, bounded: the obligation that failed least recently makes room. */
module FailureLedger {
  import opened Common

  /** An obligation's name. */
  datatype Obligation = Obligation(name: string)

  /** last is the number of the failure that touched the row last. */
  datatype Row = Row(firstSlot: int, lastSlot: int, scope: string, operation: string, count: nat, last: nat)

  /** openings counts the failures that opened a row. */
  datatype State = State(
    rows: map<Obligation, Row>, order: seq<Obligation>, limit: nat, overflow: nat, total: nat, resolved: nat,
    openings: nat)

  function Init(limit: nat): State { State(map[], [], limit, 0, 0, 0, 0) }

  function Without(order: seq<Obligation>, key: Obligation): seq<Obligation> {
    if order == [] then [] else if order[0] == key then order[1..] else [order[0]] + Without(order[1..], key)
  }

  function Trim(s: State): (t: State)
    ensures t.limit == s.limit
    decreases |s.order|
  {
    if |s.order| <= s.limit then s
    else Trim(s.(order := s.order[1..], rows := s.rows - {s.order[0]}, overflow := s.overflow + 1))
  }

  function Touched(s: State, key: Obligation, slot: int, scope: string, operation: string): State {
    var total := s.total + 1;
    var row := if key in s.rows then s.rows[key] else Row(slot, slot, scope, operation, 0, 0);
    s.(total := total, order := Without(s.order, key) + [key],
       rows := s.rows[key := Row(row.firstSlot, slot, scope, operation, row.count + 1, total)],
       openings := if key in s.rows then s.openings else s.openings + 1)
  }

  function AfterFailure(s: State, key: Obligation, slot: int, scope: string, operation: string): State {
    Trim(Touched(s, key, slot, scope, operation))
  }

  predicate Matches(row: Row, scope: Option<string>, operation: Option<string>) {
    (scope.Some? ==> row.scope == scope.value) && (operation.Some? ==> row.operation == operation.value)
  }

  function AfterSuccess(s: State, key: Obligation, scope: Option<string>, operation: Option<string>): State {
    if key !in s.rows || !Matches(s.rows[key], scope, operation) then s
    else s.(rows := s.rows - {key}, order := Without(s.order, key), resolved := s.resolved + 1)
  }

  datatype Event =
    | Failed(key: Obligation, slot: int, scope: string, operation: string)
    | Succeeded(key: Obligation, matchScope: Option<string>, matchOperation: Option<string>)

  function Next(s: State, e: Event): State {
    match e
    case Failed(key, slot, scope, operation) => AfterFailure(s, key, slot, scope, operation)
    case Succeeded(key, scope, operation) => AfterSuccess(s, key, scope, operation)
  }

  function After(s: State, es: seq<Event>): State
    decreases |es|
  {
    if es == [] then s else After(Next(s, es[0]), es[1..])
  }

  // ---- invariants -----------------------------------------------------------------------

  type Rows = map<Obligation, Row>

  /** Each listed obligation has a row, and failed before the ones listed after it. */
  ghost predicate Sorted(order: seq<Obligation>, rows: Rows) {
    && (forall k | k in order :: k in rows)
    && (forall i, j | 0 <= i < j < |order| :: rows[order[i]].last < rows[order[j]].last)
  }

  ghost predicate Listed(order: seq<Obligation>, rows: Rows) {
    (forall k | k in rows :: k in order) && |rows| == |order|
  }

  ghost predicate Recent(rows: Rows, total: nat) { forall k | k in rows :: rows[k].last <= total }

  /** The order lists the open obligations once each, least recently failed first. */
  ghost predicate Ordered(s: State) {
    Sorted(s.order, s.rows) && Listed(s.order, s.rows) && Recent(s.rows, s.total)
  }

  ghost predicate Inv(s: State) {
    Ordered(s) && |s.order| <= s.limit && s.openings == |s.rows| + s.resolved + s.overflow
  }

  // ---- sorted orders --------------------------------------------------------------------

  ghost predicate HeadFirst(head: Obligation, rest: seq<Obligation>, rows: Rows) {
    head in rows && forall k | k in rest :: k in rows && rows[head].last < rows[k].last
  }

  lemma SortedHead(head: Obligation, rest: seq<Obligation>, rows: Rows)
    ensures Sorted([head] + rest, rows) <==> Sorted(rest, rows) && HeadFirst(head, rest, rows)
  {
    var all := [head] + rest;
    if Sorted(all, rows) {
      forall k | k in rest ensures k in rows && rows[head].last < rows[k].last {
        var j :| 0 <= j < |rest| && rest[j] == k;
        assert all[j + 1] == k && all[0] == head && k in all;
      }
      assert head in all;
      forall i, j | 0 <= i < j < |rest| ensures rows[rest[i]].last < rows[rest[j]].last {
        assert all[i + 1] == rest[i] && all[j + 1] == rest[j];
      }
    }
  }

  lemma {:induction false} WithoutKeeps(order: seq<Obligation>, rows: Rows, key: Obligation)
    requires Sorted(order, rows)
    ensures Sorted(Without(order, key), rows)
    ensures forall k :: k in Without(order, key) <==> k in order && k != key
    ensures |Without(order, key)| == |order| - if key in order then 1 else 0
  {
    if order != [] {
      var head, rest := order[0], order[1..];
      assert order == [head] + rest;
      SortedHead(head, rest, rows);
      WithoutKeeps(rest, rows, key);
      SortedHead(head, Without(rest, key), rows);
      hide Sorted;
      if head == key { assert key !in rest; }
    }
  }

  lemma {:induction false} WithoutAt(list: seq<Obligation>, i: nat, key: Obligation)
    requires i < |list| && list[i] == key && forall j | 0 <= j < i :: list[j] != key
    ensures Without(list, key) == list[..i] + list[i + 1..]
  {
    if i > 0 {
      WithoutAt(list[1..], i - 1, key);
      assert list[1..][..i - 1] == list[1..i] && list[1..][i..] == list[i + 1..];
      assert list[..i] == [list[0]] + list[1..i];
    }
  }

  lemma {:induction false} NotListed(order: seq<Obligation>, key: Obligation)
    requires key !in order
    ensures Without(order, key) == order
  {
    if order != [] { NotListed(order[1..], key); }
  }

  lemma SortedSnoc(order: seq<Obligation>, rows: Rows, key: Obligation, row: Row)
    requires Sorted(order, rows) && key !in order && forall k | k in rows :: rows[k].last < row.last
    ensures Sorted(order + [key], rows[key := row])
  {
  }

  lemma RowDropped(order: seq<Obligation>, rows: Rows, total: nat, key: Obligation, shorter: seq<Obligation>)
    requires Listed(order, rows) && Recent(rows, total) && key in rows && |shorter| == |order| - 1
    requires forall k :: k in shorter <==> k in order && k != key
    ensures Listed(shorter, rows - {key}) && Recent(rows - {key}, total) && |rows - {key}| == |rows| - 1
  {
  }

  lemma SortedWithout(order: seq<Obligation>, rows: Rows, key: Obligation)
    requires Sorted(order, rows) && key !in order
    ensures Sorted(order, rows - {key})
  {
  }

  // ---- steps ----------------------------------------------------------------------------

  lemma TouchedKeeps(s: State, key: Obligation, slot: int, scope: string, operation: string)
    requires Inv(s)
    ensures var t := Touched(s, key, slot, scope, operation);
      && Ordered(t) && t.openings == |t.rows| + t.resolved + t.overflow
      && |t.order| == |s.order| + (if key in s.rows then 0 else 1)
      && t.order[|t.order| - 1] == key
  {
    WithoutKeeps(s.order, s.rows, key);
    var t := Touched(s, key, slot, scope, operation);
    var order := Without(s.order, key);
    assert key in s.rows <==> key in s.order by { hide Without, Recent; }
    SortedSnoc(order, s.rows, key, t.rows[key]);
    RowTouched(s.order, s.rows, s.total, key, t.rows[key], order);
    hide Sorted, Without, Listed, Recent;
  }

  lemma RowTouched(order: seq<Obligation>, rows: Rows, total: nat, key: Obligation, row: Row, shorter: seq<Obligation>)
    requires Listed(order, rows) && Recent(rows, total) && row.last == total + 1
    requires key in rows <==> key in order
    requires forall k :: k in shorter <==> k in order && k != key
    requires |shorter| == |order| - if key in order then 1 else 0
    ensures Listed(shorter + [key], rows[key := row]) && Recent(rows[key := row], total + 1)
    ensures |rows[key := row]| == |rows| + if key in rows then 0 else 1
  {
  }

  /** At most one obligation is dropped, and it is the first of the order. */
  lemma TrimOnce(s: State)
    requires Ordered(s) && |s.order| <= s.limit + 1 && s.openings == |s.rows| + s.resolved + s.overflow
    ensures Inv(Trim(s))
    ensures Trim(s) == if |s.order| <= s.limit then s
                       else s.(order := s.order[1..], rows := s.rows - {s.order[0]}, overflow := s.overflow + 1)
  {
    if |s.order| > s.limit {
      HeadDropped(s);
      hide Ordered;
      var t := s.(order := s.order[1..], rows := s.rows - {s.order[0]}, overflow := s.overflow + 1);
      assert Trim(t) == t;
    }
  }

  lemma HeadDropped(s: State)
    requires Ordered(s) && s.order != []
    ensures var t := s.(order := s.order[1..], rows := s.rows - {s.order[0]}, overflow := s.overflow + 1);
      Ordered(t) && |t.rows| == |s.rows| - 1
  {
    var head, rest := s.order[0], s.order[1..];
    assert s.order == [head] + rest;
    SortedHead(head, rest, s.rows);
    assert head !in rest;
    SortedWithout(rest, s.rows, head);
    RowDropped(s.order, s.rows, s.total, head, rest);
    hide Sorted, Listed, Recent;
  }

  lemma ResolveKeeps(s: State, key: Obligation, scope: Option<string>, operation: Option<string>)
    requires Inv(s)
    ensures Inv(AfterSuccess(s, key, scope, operation))
  {
    if key in s.rows {
      WithoutKeeps(s.order, s.rows, key);
      SortedWithout(Without(s.order, key), s.rows, key);
      assert key in s.order;
      RowDropped(s.order, s.rows, s.total, key, Without(s.order, key));
      hide Sorted, Without, Listed, Recent;
    }
  }

  lemma StepKeeps(s: State, e: Event)
    requires Inv(s)
    ensures Inv(Next(s, e))
  {
    match e
    case Failed(key, slot, scope, operation) =>
      TouchedKeeps(s, key, slot, scope, operation);
      TrimOnce(Touched(s, key, slot, scope, operation));
    case Succeeded(key, scope, operation) => ResolveKeeps(s, key, scope, operation);
  }

  /** Over every run: no duplicates, order and rows agree, never more than the limit, and what was opened
      is open, resolved or dropped for capacity. */
  lemma {:induction false} RunKeeps(s: State, es: seq<Event>)
    requires Inv(s)
    ensures Inv(After(s, es)) && After(s, es).limit == s.limit
    decreases |es|
  {
    if es != [] {
      StepKeeps(s, es[0]);
      hide Inv, Next;
      RunKeeps(Next(s, es[0]), es[1..]);
    }
  }

  lemma OpenedAreAccountedFor(limit: nat, es: seq<Event>)
    ensures var t := After(Init(limit), es);
      |t.rows| <= limit && t.openings == |t.rows| + t.resolved + t.overflow && |t.order| == |t.rows|
  {
    RunKeeps(Init(limit), es);
    hide Sorted, Recent, After;
  }

  /** An obligation disappears only by a matching success, or as the least recently failed one when a
      new obligation arrives at capacity. */
  lemma WhyItDisappears(s: State, e: Event, key: Obligation)
    requires Inv(s) && key in s.rows && key !in Next(s, e).rows
    ensures match e
      case Succeeded(k, scope, operation) => k == key && Matches(s.rows[key], scope, operation)
      case Failed(k, _, _, _) =>
        && k !in s.rows && |s.rows| == s.limit
        && forall other | other in s.rows && other != key :: s.rows[key].last < s.rows[other].last
  {
    if e.Failed? {
      var t := Touched(s, e.key, e.slot, e.scope, e.operation);
      TouchedKeeps(s, e.key, e.slot, e.scope, e.operation);
      TrimOnce(t);
      hide Trim, Ordered;
      assert key in t.rows && |t.order| > s.limit && t.order[0] == key;
      FirstIsOldest(s, e.key, key);
    }
  }

  lemma FirstIsOldest(s: State, added: Obligation, key: Obligation)
    requires Ordered(s) && key in s.rows && added !in s.rows
    requires (Without(s.order, added) + [added])[0] == key
    ensures forall other | other in s.rows && other != key :: s.rows[key].last < s.rows[other].last
  {
  }

  // ---- the object -----------------------------------------------------------------------

  class FailureLedger {
    var rows: map<Obligation, Row>
    var order: seq<Obligation>
    const limit: nat
    var overflow: nat
    var total: nat
    var resolved: nat
    ghost var openings: nat

    ghost function View(): State
      reads this
    {
      State(rows, order, limit, overflow, total, resolved, openings)
    }

    constructor (limit: nat)
      ensures View() == Init(limit)
    {
      rows, order, this.limit, overflow, total, resolved, openings := map[], [], limit, 0, 0, 0, 0;
    }

    /** list.remove: the first occurrence, if any. */
    method Remove(key: Obligation)
      modifies this`order
      ensures order == Without(old(order), key)
    {
      for i := 0 to |order|
        invariant order == old(order) && forall j | 0 <= j < i :: order[j] != key
      {
        if order[i] == key {
          WithoutAt(order, i, key);
          order := order[..i] + order[i + 1..];
          return;
        }
      }
      NotListed(order, key);
    }

    method Fail(key: Obligation, slot: int, scope: string, operation: string)
      modifies this
      ensures View() == AfterFailure(old(View()), key, slot, scope, operation)
    {
      Touch(key, slot, scope, operation);
      MakeRoom();
    }

    method Touch(key: Obligation, slot: int, scope: string, operation: string)
      modifies this
      ensures View() == Touched(old(View()), key, slot, scope, operation)
    {
      hide Without;
      total := total + 1;
      var row := if key in rows then rows[key] else Row(slot, slot, scope, operation, 0, 0);
      openings := if key in rows then openings else openings + 1;
      rows := rows[key := Row(row.firstSlot, slot, scope, operation, row.count + 1, total)];
      Remove(key);
      order := order + [key];
    }

    method MakeRoom()
      modifies this
      ensures View() == Trim(old(View()))
    {
      ghost var goal := Trim(View());
      while |order| > limit
        invariant Trim(View()) == goal
        decreases |order|
      {
        var dropped := order[0];
        order := order[1..];
        rows := rows - {dropped};
        overflow := overflow + 1;
      }
    }

    method Resolve(key: Obligation, scope: Option<string>, operation: Option<string>) returns (cleared: bool)
      modifies this
      ensures View() == AfterSuccess(old(View()), key, scope, operation)
      ensures cleared <==> key in old(rows) && Matches(old(rows)[key], scope, operation)
    {
      if key !in rows || !Matches(rows[key], scope, operation) {
        return false;
      }
      rows := rows - {key};
      Remove(key);
      resolved := resolved + 1;
      cleared := true;
    }
  }
}
