/**
 Rows of the authority tables as JSON objects. A descriptor may hold any object as a journal or
 outbox row; a row that comes out of the database has exactly the selected columns, each holding a
 value a column can hold, and the queries return rows in the order of their identities.
 */
module AuthorityRows {
  import opened JsonValues

  type Row = map<string, Json>

  // ---- identities -----------------------------------------------------------------------

  type RowId = (Json, Json, Json)

  /** Python compares True, 1 and 1.0 as equal. */
  function Plainly(v: Json): Json {
    match v
    case Bool(b) => Int(if b then 1 else 0)
    case Num(x) => if x.e == 0 then Int(x.m) else v
    case _ => v
  }

  function IdOf(row: Row): RowId {
    (Plainly(Get(row, "tenant")), Plainly(Get(row, "environment")), Plainly(Get(row, "key")))
  }

  /** A missing field, or one that cannot be in a set, is refused. */
  predicate CanIdentify(v: Json) { !v.Null? && !v.Arr? && !v.Obj? }

  predicate Identified(id: RowId) { CanIdentify(id.0) && CanIdentify(id.1) && CanIdentify(id.2) }

  ghost predicate DistinctRows(rows: seq<Row>) {
    && (forall i | 0 <= i < |rows| :: Identified(IdOf(rows[i])))
    && (forall i, j | 0 <= i < j < |rows| :: IdOf(rows[i]) != IdOf(rows[j]))
  }

  // ---- rows of a table ------------------------------------------------------------------

  const JOURNAL_FIELDS: set<string> := {
    "tenant", "environment", "key", "status", "old_generation", "old_manifest", "old_receipt",
    "new_generation", "new_manifest", "new_receipt"}

  /** The journal fields the oracle looks at. */
  const JOURNAL_READ: set<string> := {"tenant", "environment", "key", "old_manifest", "new_manifest", "new_receipt"}

  const OUTBOX_FIELDS: set<string> := {"tenant", "environment", "key", "body", "status", "ack", "url"}

  const MAX_INTEGER := 0x7fff_ffff_ffff_ffff

  /** A column holds null, a 64-bit integer, a number or a text; no boolean, array or object. */
  predicate Storable(v: Json) {
    v.Null? || (v.Int? && -MAX_INTEGER - 1 <= v.n <= MAX_INTEGER) || v.Num? || v.Str?
  }

  predicate FromTable(row: Row, fields: set<string>) {
    row.Keys == fields && forall name | name in row :: Storable(row[name])
  }

  // ---- the order of the queries ---------------------------------------------------------

  /** Binary collation: the first difference decides, and a prefix comes first. */
  predicate TextBefore(a: string, b: string) {
    if a == [] then b != []
    else if b == [] then false
    else if a[0] != b[0] then a[0] < b[0]
    else TextBefore(a[1..], b[1..])
  }

  function Class(v: Json): nat {
    match v
    case Null => 0
    case Int(_) => 1
    case Num(_) => 1
    case Str(_) => 2
    case _ => 3
  }

  function Pow2(e: nat): (r: nat)
    ensures r > 0
  {
    if e == 0 then 1 else 2 * Pow2(e - 1)
  }

  function Amount(v: Json): real {
    match v
    case Int(n) => n as real
    case Num(x) => x.m as real / Pow2(x.e) as real
    case _ => 0.0
  }

  /** Null, then numbers by size, then texts. */
  predicate Before(a: Json, b: Json) {
    if Class(a) != Class(b) then Class(a) < Class(b)
    else if a.Str? && b.Str? then TextBefore(a.s, b.s)
    else Amount(a) < Amount(b)
  }

  predicate IdBefore(a: RowId, b: RowId) {
    || Before(a.0, b.0)
    || (!Before(b.0, a.0)
        && (Before(a.1, b.1) || (!Before(b.1, a.1) && Before(a.2, b.2))))
  }

  /** No row comes before an earlier one. */
  ghost predicate InOrder(ids: seq<RowId>) { forall i, j | 0 <= i < j < |ids| :: !IdBefore(ids[j], ids[i]) }

  function SortKey(row: Row): RowId { (Get(row, "tenant"), Get(row, "environment"), Get(row, "key")) }

  function SortKeys(rows: seq<Row>): (r: seq<RowId>)
    ensures |r| == |rows|
    ensures forall i | 0 <= i < |rows| :: r[i] == SortKey(rows[i])
  {
    seq(|rows|, i requires 0 <= i < |rows| => SortKey(rows[i]))
  }

  /** What a query over one table returns. */
  ghost predicate QueryResult(rows: seq<Row>, fields: set<string>) {
    (forall row | row in rows :: FromTable(row, fields)) && InOrder(SortKeys(rows))
  }

  /** Different texts are in one order or the other, never in both. */
  lemma {:induction false} TextsCompare(a: string, b: string)
    ensures !(TextBefore(a, b) && TextBefore(b, a))
    ensures a != b ==> TextBefore(a, b) || TextBefore(b, a)
  {
    if a != [] && b != [] && a[0] == b[0] {
      TextsCompare(a[1..], b[1..]);
      assert a == [a[0]] + a[1..] && b == [b[0]] + b[1..];
    }
  }

  predicate AllText(id: RowId) { id.0.Str? && id.1.Str? && id.2.Str? }

  /** So exchanging two different identities of a query result leaves its order. */
  lemma SwapLeavesOrder(ids: seq<RowId>, i: nat, j: nat)
    requires i < j < |ids| && InOrder(ids) && ids[i] != ids[j] && AllText(ids[i]) && AllText(ids[j])
    ensures !InOrder(ids[i := ids[j]][j := ids[i]])
  {
    var a, b := ids[i], ids[j];
    TextsCompare(a.0.s, b.0.s);
    TextsCompare(a.1.s, b.1.s);
    TextsCompare(a.2.s, b.2.s);
    var swapped := ids[i := b][j := a];
    assert swapped[i] == b && swapped[j] == a;
  }
}
