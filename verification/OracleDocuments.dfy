/**
 The JSON documents of an archive. The oracle reads them with row.get and iteration, so it accepts
 more spellings than it writes: reading back what was written gives the document, not the reverse.
 */
module OracleDocuments {
  import opened Common
  import opened JsonValues
  import opened AuthorityRows

  datatype Receipt = Receipt(
    tenant: string, environment: string, key: string, generation: int, manifest: string, request: Json)

  /** A current row is kept as JSON text, so it may have fields beside the five the oracle reads. */
  datatype Current = Current(
    tenant: string, environment: string, key: string, generation: int, manifest: string, rest: FurtherFields)

  type FurtherFields = r: Row | r.Keys !! CURRENT_FIELDS witness map[]

  datatype Manifest = Manifest(tenant: Json, environment: Json, packages: seq<string>)

  datatype Descriptor = Descriptor(
    receipts: seq<Receipt>, current: seq<Current>, journal: seq<Row>, outbox: seq<Row>)

  const CURRENT_FIELDS: set<string> := {"tenant", "environment", "key", "generation", "manifest_sha256"}

  const RECEIPT_FIELDS: set<string> :=
    {"tenant", "environment", "key", "generation", "manifest_sha256", "request_json"}

  const DESCRIPTOR_FIELDS: set<string> := {"format", "schema_version", "receipts", "current", "journal", "outbox"}

  const FORMAT := "online-package-backup-v1"

  // ---- as a cut writes them -------------------------------------------------------------

  function RowJson(row: Row): Json { Obj(row) }

  function ReceiptJson(r: Receipt): Json {
    Obj(map["tenant" := Str(r.tenant), "environment" := Str(r.environment), "key" := Str(r.key),
            "generation" := Int(r.generation), "manifest_sha256" := Str(r.manifest), "request_json" := r.request])
  }

  function CurrentJson(c: Current): Json {
    Obj(c.rest + map["tenant" := Str(c.tenant), "environment" := Str(c.environment), "key" := Str(c.key),
                     "generation" := Int(c.generation), "manifest_sha256" := Str(c.manifest)])
  }

  function Each<T>(write: T -> Json, xs: seq<T>): (r: seq<Json>)
    ensures |r| == |xs|
    ensures forall i | 0 <= i < |xs| :: r[i] == write(xs[i])
  {
    seq(|xs|, i requires 0 <= i < |xs| => write(xs[i]))
  }

  function DescriptorJson(d: Descriptor): Json {
    Obj(map["format" := Str(FORMAT), "schema_version" := Int(2),
            "receipts" := Arr(Each(ReceiptJson, d.receipts)), "current" := Arr(Each(CurrentJson, d.current)),
            "journal" := Arr(Each(RowJson, d.journal)), "outbox" := Arr(Each(RowJson, d.outbox))])
  }

  // ---- as the oracle reads them ---------------------------------------------------------

  function ReadRow(j: Json): Option<Row> { if j.Obj? then Some(j.fields) else None }

  function ReadReceipt(j: Json): Option<Receipt> {
    if j.Obj? && j.fields.Keys == RECEIPT_FIELDS
       && j.fields["tenant"].Str? && j.fields["environment"].Str? && j.fields["key"].Str?
       && j.fields["generation"].Int? && j.fields["manifest_sha256"].Str?
    then Some(Receipt(j.fields["tenant"].s, j.fields["environment"].s, j.fields["key"].s,
                      j.fields["generation"].n, j.fields["manifest_sha256"].s, j.fields["request_json"]))
    else None
  }

  function ReadCurrent(j: Json): Option<Current> {
    if j.Obj?
       && Get(j.fields, "tenant").Str? && Get(j.fields, "environment").Str? && Get(j.fields, "key").Str?
       && Get(j.fields, "generation").Int? && Get(j.fields, "manifest_sha256").Str?
    then Some(Current(Get(j.fields, "tenant").s, Get(j.fields, "environment").s, Get(j.fields, "key").s,
                      Get(j.fields, "generation").n, Get(j.fields, "manifest_sha256").s, j.fields - CURRENT_FIELDS))
    else None
  }

  /** What a loop over the value visits; an empty object or text visits nothing. */
  function Items(j: Json): Option<seq<Json>> {
    match j
    case Arr(items) => Some(items)
    case Obj(fields) => if fields == map[] then Some([]) else None
    case Str(s) => if s == "" then Some([]) else None
    case _ => None
  }

  function ReadAll<T>(read: Json -> Option<T>, j: Json): Option<seq<T>> {
    var items := Items(j);
    if items.Some? && forall i | 0 <= i < |items.value| :: read(items.value[i]).Some?
    then Some(seq(|items.value|, i requires 0 <= i < |items.value| && read(items.value[i]).Some? =>
                read(items.value[i]).value))
    else None
  }

  function ReadDescriptor(j: Json): Option<Descriptor> {
    if j.Obj? && j.fields.Keys == DESCRIPTOR_FIELDS
       && j.fields["format"] == Str(FORMAT) && Plainly(j.fields["schema_version"]) == Int(2)
       && ReadAll(ReadReceipt, j.fields["receipts"]).Some? && ReadAll(ReadCurrent, j.fields["current"]).Some?
       && ReadAll(ReadRow, j.fields["journal"]).Some? && ReadAll(ReadRow, j.fields["outbox"]).Some?
    then Some(Descriptor(
                ReadAll(ReadReceipt, j.fields["receipts"]).value, ReadAll(ReadCurrent, j.fields["current"]).value,
                ReadAll(ReadRow, j.fields["journal"]).value, ReadAll(ReadRow, j.fields["outbox"]).value))
    else None
  }

  function ReadPackage(j: Json): Option<string> {
    if j.Obj? && Get(j.fields, "sha256").Str? then Some(Get(j.fields, "sha256").s) else None
  }

  function ReadManifest(j: Json): Option<Manifest> {
    if !j.Obj? then None
    else
      var packages :=
        if "packages" in j.fields then ReadAll(ReadPackage, j.fields["packages"]) else Some([]);
      if packages.None? then None
      else Some(Manifest(Get(j.fields, "tenant"), Get(j.fields, "environment"), packages.value))
  }

  // ---- reading back ---------------------------------------------------------------------

  lemma ReceiptReads(r: Receipt)
    ensures ReadReceipt(ReceiptJson(r)) == Some(r)
  {
    assert ReceiptJson(r).fields.Keys == RECEIPT_FIELDS;
  }

  lemma CurrentReads(c: Current)
    ensures ReadCurrent(CurrentJson(c)) == Some(c)
  {
    var five := map["tenant" := Str(c.tenant), "environment" := Str(c.environment), "key" := Str(c.key),
                    "generation" := Int(c.generation), "manifest_sha256" := Str(c.manifest)];
    assert five.Keys == CURRENT_FIELDS;
    assert (c.rest + five) - CURRENT_FIELDS == c.rest;
  }

  /** A current row that can be read is written back as it was, whatever else it holds. */
  lemma CurrentWrites(j: Json, c: Current)
    requires ReadCurrent(j) == Some(c)
    ensures CurrentJson(c) == j
  {
    var five := map["tenant" := Str(c.tenant), "environment" := Str(c.environment), "key" := Str(c.key),
                    "generation" := Int(c.generation), "manifest_sha256" := Str(c.manifest)];
    assert five.Keys == CURRENT_FIELDS;
    assert forall name | name in CURRENT_FIELDS :: name in j.fields && five[name] == j.fields[name];
    assert c.rest + five == j.fields;
  }

  lemma AllRead<T>(read: Json -> Option<T>, write: T -> Json, xs: seq<T>)
    requires forall x | x in xs :: read(write(x)) == Some(x)
    ensures ReadAll(read, Arr(Each(write, xs))) == Some(xs)
  {
    var items := Each(write, xs);
    assert forall i | 0 <= i < |xs| :: read(items[i]) == Some(xs[i]);
    assert ReadAll(read, Arr(items)).value == xs;
  }

  lemma RowsRead(d: Descriptor)
    ensures ReadAll(ReadReceipt, Arr(Each(ReceiptJson, d.receipts))) == Some(d.receipts)
    ensures ReadAll(ReadCurrent, Arr(Each(CurrentJson, d.current))) == Some(d.current)
    ensures ReadAll(ReadRow, Arr(Each(RowJson, d.journal))) == Some(d.journal)
    ensures ReadAll(ReadRow, Arr(Each(RowJson, d.outbox))) == Some(d.outbox)
  {
    hide ReadAll, ReadReceipt, ReadCurrent, ReceiptJson, CurrentJson, Each;
    forall r | r in d.receipts ensures ReadReceipt(ReceiptJson(r)) == Some(r) { ReceiptReads(r); }
    forall c | c in d.current ensures ReadCurrent(CurrentJson(c)) == Some(c) { CurrentReads(c); }
    AllRead(ReadReceipt, ReceiptJson, d.receipts);
    AllRead(ReadCurrent, CurrentJson, d.current);
    AllRead(ReadRow, RowJson, d.journal);
    AllRead(ReadRow, RowJson, d.outbox);
  }

  /** A written descriptor is read as the descriptor. */
  lemma DescriptorReads(d: Descriptor)
    ensures ReadDescriptor(DescriptorJson(d)) == Some(d)
  {
    hide ReadAll, ReadReceipt, ReadCurrent, ReadRow, ReceiptJson, CurrentJson, RowJson, Each;
    RowsRead(d);
    assert DescriptorJson(d).fields.Keys == DESCRIPTOR_FIELDS;
  }
}
