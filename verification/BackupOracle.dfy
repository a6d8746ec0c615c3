/**
 The backup oracle: which authority points can be cut into an archive, which member maps it
 accepts, and how the two relate. Documents are decoded JSON values; the canonical encoder, the
 decoder and the hash are parameters, ideal in the sense that encoding round-trips and hashing
 does not collide.
 */
module BackupOracle {
  import opened Common
  import opened MemberNames
  import opened JsonValues
  import opened AuthorityRows
  import opened OracleDocuments

  type Scope = (string, string)
  type Identity = (string, string, string)
  type Members = map<string, Bytes>

  /** The canonical encoder, the decoder, the hash, and the parser of texts kept in rows. */
  datatype Codec = Codec(
    canon: Json -> Bytes, loads: Bytes -> Option<Json>, sha: Bytes -> string, parse: string -> Option<Json>)

  /** The canonical encoding of a value decodes to that value. */
  ghost predicate RoundTrips(k: Codec) { forall j :: k.loads(k.canon(j)) == Some(j) }

  /** SHA-256 does not collide. */
  ghost predicate CollisionFree(k: Codec) { forall a, b :: k.sha(a) == k.sha(b) ==> a == b }

  /** The value a body is the canonical encoding of. */
  function Decoded(k: Codec, body: Bytes): Option<Json> {
    match k.loads(body)
    case None => None
    case Some(j) => if k.canon(j) == body then Some(j) else None
  }

  function DescriptorIn(k: Codec, body: Bytes): Option<Descriptor> {
    match Decoded(k, body)
    case None => None
    case Some(j) => ReadDescriptor(j)
  }

  function ManifestIn(k: Codec, body: Bytes): Option<Manifest> {
    match Decoded(k, body)
    case None => None
    case Some(j) => ReadManifest(j)
  }

  /** The manifest serves the scope it was written for. */
  predicate Serves(m: Manifest, r: Receipt) { m.tenant == Str(r.tenant) && m.environment == Str(r.environment) }

  const MEMBER_BOUND := 1024
  const MEMBER_BYTES := 2 * 1024 * 1024
  const TOTAL_BYTES := 8 * 1024 * 1024

  // ---- histories ------------------------------------------------------------------------

  function ScopeOf(r: Receipt): Scope { (r.tenant, r.environment) }
  function CurrentScope(c: Current): Scope { (c.tenant, c.environment) }

  /** The generations of one scope, in receipt order. */
  function Generations(receipts: seq<Receipt>, scope: Scope): seq<int> {
    if receipts == [] then []
    else
      var init := Generations(receipts[..|receipts| - 1], scope);
      var last := receipts[|receipts| - 1];
      if ScopeOf(last) == scope then init + [last.generation] else init
  }

  function UpTo(n: nat): (r: seq<int>)
    ensures |r| == n
    ensures forall i | 0 <= i < n :: r[i] == i + 1
  {
    if n == 0 then [] else UpTo(n - 1) + [n]
  }

  /** Some order of the generations is 1, 2, ..., N. */
  ghost predicate Contiguous(gens: seq<int>) { multiset(gens) == multiset(UpTo(|gens|)) }

  ghost predicate NamesCurrent(current: seq<Current>, scope: Scope, generation: int) {
    exists i :: 0 <= i < |current| && CurrentScope(current[i]) == scope && current[i].generation == generation
  }

  /** Per scope, generations are numbered without gaps from 1 and the last one is the current row's; scopes
      without receipts have no current row. */
  ghost predicate GenerationsOk(receipts: seq<Receipt>, current: seq<Current>) {
    && (forall i, j | 0 <= i < j < |current| :: CurrentScope(current[i]) != CurrentScope(current[j]))
    && (forall r | r in receipts :: var gens := Generations(receipts, ScopeOf(r));
          Contiguous(gens) && NamesCurrent(current, ScopeOf(r), |gens|))
    && (forall c | c in current :: exists r :: r in receipts && ScopeOf(r) == CurrentScope(c))
  }

  // ---- identities -----------------------------------------------------------------------

  function ReceiptIdentity(r: Receipt): Identity { (r.tenant, r.environment, r.key) }
  function CurrentIdentity(c: Current): Identity { (c.tenant, c.environment, c.key) }

  ghost predicate UniqueIdentities(d: Descriptor) {
    DistinctRows(d.outbox) && DistinctRows(d.journal)
  }

  // ---- closure of the journal -----------------------------------------------------------

  /** A missing or empty digest names nothing. */
  predicate Covered(digest: Json, digests: set<string>) {
    !Truthy(digest) || (digest.Str? && digest.s in digests)
  }

  predicate NewReceiptClosed(k: Codec, v: Json, digests: set<string>) {
    !Truthy(v) || (v.Str? && match k.parse(v.s)
                             case Some(Obj(fields)) => Covered(Get(fields, "manifest_sha256"), digests)
                             case _ => false)
  }

  predicate JournalRowClosed(k: Codec, row: Row, digests: set<string>) {
    && Covered(Get(row, "old_manifest"), digests) && Covered(Get(row, "new_manifest"), digests)
    && NewReceiptClosed(k, Get(row, "new_receipt"), digests)
  }

  ghost predicate JournalClosed(k: Codec, journal: seq<Row>, digests: set<string>) {
    forall i | 0 <= i < |journal| :: JournalRowClosed(k, journal[i], digests)
  }

  // ---- what the validator accepts -------------------------------------------------------

  ghost function TotalBytes(m: Members): nat {
    if m == map[] then 0 else var name :| name in m; |m[name]| + TotalBytes(m - {name})
  }

  /** Within the archive bounds, and every name inside the archive layout. */
  ghost predicate InBounds(m: Members) {
    && |m| <= MEMBER_BOUND
    && (forall name | name in m :: |m[name]| <= MEMBER_BYTES && InLayout(name))
    && TotalBytes(m) <= TOTAL_BYTES
  }

  ghost function ManifestDigests(m: Members): set<string> {
    set name | name in m && IsManifest(name) :: ManifestDigest(name)
  }

  ghost function ObjectDigests(m: Members): set<string> {
    set name | name in m && IsObject(name) :: ObjectDigest(name)
  }

  ghost predicate ManifestMemberOk(k: Codec, m: Members, name: string)
    requires name in m && IsManifest(name)
  {
    k.sha(m[name]) == ManifestDigest(name) && ManifestIn(k, m[name]).Some?
  }

  ghost predicate FilesOk(k: Codec, m: Members) {
    && (forall name | name in m && IsManifest(name) :: ManifestMemberOk(k, m, name))
    && (forall name | name in m && IsObject(name) :: k.sha(m[name]) == ObjectDigest(name))
  }

  /** The manifest stored under a digest. */
  ghost predicate Stores(k: Codec, m: Members, digest: string, manifest: Manifest) {
    exists name :: name in m && IsManifest(name) && ManifestDigest(name) == digest
                   && ManifestIn(k, m[name]) == Some(manifest)
  }

  ghost predicate ServesScope(k: Codec, m: Members, r: Receipt) {
    exists manifest :: Stores(k, m, r.manifest, manifest) && Serves(manifest, r)
  }

  ghost predicate PackagesPresent(k: Codec, m: Members) {
    forall digest, manifest, p | Stores(k, m, digest, manifest) && p in manifest.packages :: p in ObjectDigests(m)
  }

  predicate Holds(k: Codec, m: Members, name: string, doc: Json) { name in m && m[name] == k.canon(doc) }

  ghost predicate RowsPresent(k: Codec, m: Members, d: Descriptor) {
    && (forall i | 0 <= i < |d.journal| :: Holds(k, m, JournalName(i), RowJson(d.journal[i])))
    && (forall i | 0 <= i < |d.outbox| ::
          Holds(k, m, OutboxName(i), RowJson(d.outbox[i])) && Get(d.outbox[i], "body").Str?)
    && (forall c | c in d.current :: Holds(k, m, PointerName(c.tenant, c.environment), CurrentJson(c)))
  }

  ghost predicate CountMatches(m: Members, d: Descriptor) {
    |m| == 1 + |ManifestDigests(m)| + |ObjectDigests(m)| + |d.journal| + |d.outbox| + |d.current|
  }

  /** The rows of the descriptor agree with each other. */
  ghost predicate RowsAgree(d: Descriptor) {
    && GenerationsOk(d.receipts, d.current) && UniqueIdentities(d)
    && (forall c | c in d.current :: exists r :: r in d.receipts && ReceiptIdentity(r) == CurrentIdentity(c))
  }

  ghost predicate AcceptsWith(k: Codec, m: Members, d: Descriptor) {
    && DESCRIPTOR in m && DescriptorIn(k, m[DESCRIPTOR]) == Some(d)
    && InBounds(m) && RowsAgree(d) && FilesOk(k, m)
    && (forall r | r in d.receipts :: ServesScope(k, m, r))
    && JournalClosed(k, d.journal, ManifestDigests(m))
    && PackagesPresent(k, m) && RowsPresent(k, m, d) && CountMatches(m, d)
  }

  /** validate_members. */
  ghost predicate Accepts(k: Codec, m: Members) { exists d :: AcceptsWith(k, m, d) }

  // ---- cutting a repository -------------------------------------------------------------

  /** One authority point: the rows as the queries return them, and the files they refer to. */
  datatype Repository = Repository(
    receipts: seq<Receipt>, current: seq<Current>, journal: seq<Row>, outbox: seq<Row>,
    manifestFiles: map<string, Bytes>, objectFiles: map<string, Bytes>, pointerFiles: map<string, Bytes>)

  function DescriptorOf(repo: Repository): Descriptor {
    Descriptor(repo.receipts, repo.current, repo.journal, repo.outbox)
  }

  function ReceiptKeys(receipts: seq<Receipt>): (r: seq<RowId>)
    ensures |r| == |receipts|
    ensures forall i | 0 <= i < |receipts| ::
      r[i] == (Str(receipts[i].tenant), Str(receipts[i].environment), Str(receipts[i].key))
  {
    seq(|receipts|, i requires 0 <= i < |receipts| =>
      (Str(receipts[i].tenant), Str(receipts[i].environment), Str(receipts[i].key)))
  }

  function CurrentKeys(current: seq<Current>): (r: seq<RowId>)
    ensures |r| == |current|
    ensures forall i | 0 <= i < |current| :: r[i] == (Str(current[i].tenant), Str(current[i].environment), Null)
  {
    seq(|current|, i requires 0 <= i < |current| => (Str(current[i].tenant), Str(current[i].environment), Null))
  }

  /** Rows as the four queries return them: columns as stored, ordered by identity or scope. */
  ghost predicate AsQueried(d: Descriptor) {
    && InOrder(ReceiptKeys(d.receipts)) && (forall r | r in d.receipts :: Storable(r.request))
    && InOrder(CurrentKeys(d.current))
    && QueryResult(d.journal, JOURNAL_FIELDS) && QueryResult(d.outbox, OUTBOX_FIELDS)
  }

  /** The last receipt of an identity, as the receipt dictionary keeps it. */
  ghost predicate LastReceipt(receipts: seq<Receipt>, i: nat) {
    i < |receipts| && forall j | i < j < |receipts| :: ReceiptIdentity(receipts[j]) != ReceiptIdentity(receipts[i])
  }

  predicate SameFields(c: Current, r: Receipt) {
    CurrentIdentity(c) == ReceiptIdentity(r) && c.generation == r.generation && c.manifest == r.manifest
  }

  function ManifestFile(k: Codec, repo: Repository, digest: string): Option<Manifest> {
    if digest !in repo.manifestFiles || k.sha(repo.manifestFiles[digest]) != digest then None
    else ManifestIn(k, repo.manifestFiles[digest])
  }

  predicate ObjectFileOk(k: Codec, repo: Repository, p: string) {
    p in repo.objectFiles && k.sha(repo.objectFiles[p]) == p
  }

  ghost predicate ReceiptFilesOk(k: Codec, repo: Repository, r: Receipt) {
    var m := ManifestFile(k, repo, r.manifest);
    && m.Some? && Serves(m.value, r)
    && forall p | p in m.value.packages :: ObjectFileOk(k, repo, p)
  }

  ghost function CutManifests(repo: Repository): set<string> { set r | r in repo.receipts :: r.manifest }

  ghost predicate Needs(k: Codec, repo: Repository, p: string) {
    exists r :: r in repo.receipts && ManifestFile(k, repo, r.manifest).Some?
                && p in ManifestFile(k, repo, r.manifest).value.packages
  }

  ghost function CutObjects(k: Codec, repo: Repository): set<string> {
    set p | p in repo.objectFiles && Needs(k, repo, p)
  }

  /** repository_cut succeeds. */
  ghost predicate CutOk(k: Codec, repo: Repository) {
    && GenerationsOk(repo.receipts, repo.current) && UniqueIdentities(DescriptorOf(repo))
    && (forall c | c in repo.current :: exists i: nat ::
       LastReceipt(repo.receipts, i) && SameFields(c, repo.receipts[i]))
    && (forall r | r in repo.receipts :: ReceiptFilesOk(k, repo, r))
    && JournalClosed(k, repo.journal, CutManifests(repo))
    && (forall c | c in repo.current ::
          var name := PointerName(c.tenant, c.environment);
          name in repo.pointerFiles && repo.pointerFiles[name] == k.canon(CurrentJson(c)))
  }

  /** Where each member of a cut comes from. */
  ghost predicate CutMember(k: Codec, repo: Repository, name: string, body: Bytes) {
    || (name == DESCRIPTOR && body == k.canon(DescriptorJson(DescriptorOf(repo))))
    || (exists d ::
         d in CutManifests(repo) && d in repo.manifestFiles && name == ManifestName(d) && body == repo.manifestFiles[d])
    || (exists p :: p in CutObjects(k, repo) && name == ObjectName(p) && body == repo.objectFiles[p])
    || (exists i: nat :: i < |repo.journal| && name == JournalName(i) && body == k.canon(RowJson(repo.journal[i])))
    || (exists i: nat :: i < |repo.outbox| && name == OutboxName(i) && body == k.canon(RowJson(repo.outbox[i])))
    || (exists c ::
         c in repo.current && name == PointerName(c.tenant, c.environment) && body == k.canon(CurrentJson(c)))
  }

  /** m is the member map that repository_cut builds from what the queries return. */
  ghost predicate IsCut(k: Codec, repo: Repository, m: Members) {
    && AsQueried(DescriptorOf(repo)) && CutOk(k, repo)
    && (forall name | name in m :: CutMember(k, repo, name, m[name]))
    && (forall name, body | CutMember(k, repo, name, body) :: name in m && m[name] == body)
  }

  /** Segments pathlib leaves alone, and outbox bodies that are text. */
  ghost predicate WellNamed(repo: Repository) {
    && (forall c | c in repo.current :: Plain(c.tenant) && Plain(c.environment))
    && (forall i | 0 <= i < |repo.outbox| :: Get(repo.outbox[i], "body").Str?)
  }
}
