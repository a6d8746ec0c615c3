/** repository_cut as it runs: reads an authority point and assembles its member map. */
module BackupCut {
  import opened Common
  import opened MemberNames
  import opened JsonValues
  import opened AuthorityRows
  import opened OracleDocuments
  import opened BackupOracle
  import opened BackupTheorems
  import opened BackupChecks

  // ---- current rows against their receipts ----------------------------------------------

  /** The last of the first n receipts with an identity. */
  predicate LastAt(receipts: seq<Receipt>, n: nat, i: nat, id: Identity)
    requires n <= |receipts|
  {
    i < n && ReceiptIdentity(receipts[i]) == id && forall j | i < j < n :: ReceiptIdentity(receipts[j]) != id
  }

  /** The receipt dictionary: later rows of an identity replace earlier ones. */
  ghost predicate LastOf(receipts: seq<Receipt>, n: nat, index: map<Identity, Receipt>)
    requires n <= |receipts|
  {
    && (forall i | 0 <= i < n :: ReceiptIdentity(receipts[i]) in index)
    && (forall id | id in index :: exists i: nat :: LastAt(receipts, n, i, id) && receipts[i] == index[id])
  }

  ghost predicate Historical(receipts: seq<Receipt>, c: Current) {
    exists i: nat :: LastReceipt(receipts, i) && SameFields(c, receipts[i])
  }

  method IndexReceipts(receipts: seq<Receipt>) returns (index: map<Identity, Receipt>)
    ensures LastOf(receipts, |receipts|, index)
  {
    index := map[];
    for n := 0 to |receipts|
      invariant LastOf(receipts, n, index)
    {
      hide LastOf;
      index := index[ReceiptIdentity(receipts[n]) := receipts[n]];
    }
  }

  method CheckCurrent(receipts: seq<Receipt>, current: seq<Current>) returns (ok: bool)
    ensures ok <==> forall c | c in current :: Historical(receipts, c)
  {
    var index := IndexReceipts(receipts);
    hide LastOf, Historical, SameFields;
    ok := true;
    for i := 0 to |current|
      invariant ok <==> forall j | 0 <= j < i :: Historical(receipts, current[j])
    {
      IndexDecides(receipts, index, current[i]);
      ok := ok && CurrentIdentity(current[i]) in index && SameFields(current[i], index[CurrentIdentity(current[i])]);
    }
  }

  lemma IndexDecides(receipts: seq<Receipt>, index: map<Identity, Receipt>, c: Current)
    requires LastOf(receipts, |receipts|, index)
    ensures Historical(receipts, c) <==> CurrentIdentity(c) in index && SameFields(c, index[CurrentIdentity(c)])
  {
  }

  // ---- files ----------------------------------------------------------------------------

  /** The manifest and object bytes read for the first n receipts. */
  ghost predicate Read(k: Codec, repo: Repository, n: nat, manifests: map<string, Bytes>, objects: map<string, Bytes>)
    requires n <= |repo.receipts|
  {
    && (forall i | 0 <= i < n :: ReceiptFilesOk(k, repo, repo.receipts[i]) && repo.receipts[i].manifest in manifests)
    && (forall d | d in manifests ::
         d in CutManifests(repo) && d in repo.manifestFiles && manifests[d] == repo.manifestFiles[d])
    && (forall i, p | 0 <= i < n && p in PackagesOf(k, repo, repo.receipts[i]) :: p in objects)
    && (forall p | p in objects :: p in CutObjects(k, repo) && objects[p] == repo.objectFiles[p])
  }

  function PackagesOf(k: Codec, repo: Repository, r: Receipt): seq<string> {
    match ManifestFile(k, repo, r.manifest)
    case None => []
    case Some(m) => m.packages
  }

  method ReadPackages(k: Codec, repo: Repository, r: Receipt, before: map<string, Bytes>)
    returns (ok: bool, objects: map<string, Bytes>)
    requires r in repo.receipts && ManifestFile(k, repo, r.manifest).Some?
    requires forall p | p in before :: p in CutObjects(k, repo) && before[p] == repo.objectFiles[p]
    ensures ok <==> forall p | p in PackagesOf(k, repo, r) :: ObjectFileOk(k, repo, p)
    ensures ok ==> before.Keys <= objects.Keys && forall p | p in PackagesOf(k, repo, r) :: p in objects
    ensures ok ==> forall p | p in objects :: p in CutObjects(k, repo) && objects[p] == repo.objectFiles[p]
  {
    objects := before;
    var packages := PackagesOf(k, repo, r);
    for i := 0 to |packages|
      invariant before.Keys <= objects.Keys
      invariant forall j | 0 <= j < i :: ObjectFileOk(k, repo, packages[j]) && packages[j] in objects
      invariant forall p | p in objects :: p in CutObjects(k, repo) && objects[p] == repo.objectFiles[p]
    {
      var p := packages[i];
      if !ObjectFileOk(k, repo, p) {
        return false, objects;
      }
      assert Needs(k, repo, p);
      objects := objects[p := repo.objectFiles[p]];
    }
    ok := true;
  }

  lemma ReadSnoc(k: Codec, repo: Repository, i: nat, manifests: map<string, Bytes>, objects: map<string, Bytes>,
                 more: map<string, Bytes>)
    requires i < |repo.receipts| && Read(k, repo, i, manifests, objects)
    requires ReceiptFilesOk(k, repo, repo.receipts[i]) && objects.Keys <= more.Keys
    requires forall p | p in PackagesOf(k, repo, repo.receipts[i]) :: p in more
    requires forall p | p in more :: p in CutObjects(k, repo) && more[p] == repo.objectFiles[p]
    ensures var digest := repo.receipts[i].manifest;
      && digest in repo.manifestFiles
      && Read(k, repo, i + 1, manifests[digest := repo.manifestFiles[digest]], more)
  {
    hide CutObjects, PackagesOf, ManifestIn;
    assert repo.receipts[i] in repo.receipts;
  }

  lemma ReceiptDecided(k: Codec, repo: Repository, r: Receipt)
    ensures ReceiptFilesOk(k, repo, r) <==>
      var m := ManifestFile(k, repo, r.manifest);
      m.Some? && Serves(m.value, r) && forall p | p in PackagesOf(k, repo, r) :: ObjectFileOk(k, repo, p)
  {
    hide ManifestFile, ObjectFileOk;
  }

  method ReadFiles(k: Codec, repo: Repository)
    returns (ok: bool, manifests: map<string, Bytes>, objects: map<string, Bytes>)
    ensures ok <==> forall r | r in repo.receipts :: ReceiptFilesOk(k, repo, r)
    ensures ok ==> Read(k, repo, |repo.receipts|, manifests, objects)
  {
    manifests, objects := map[], map[];
    NothingRead(k, repo);
    hide Read, ReceiptFilesOk, PackagesOf, ManifestFile, ObjectFileOk, CutObjects, CutManifests, Serves;
    for i := 0 to |repo.receipts|
      invariant Read(k, repo, i, manifests, objects)
      invariant forall j | 0 <= j < i :: ReceiptFilesOk(k, repo, repo.receipts[j])
    {
      var r := repo.receipts[i];
      assert r in repo.receipts;
      ReceiptDecided(k, repo, r);
      var m := ManifestFile(k, repo, r.manifest);
      if m.None? || !Serves(m.value, r) {
        return false, manifests, objects;
      }
      ReadObjects(k, repo, i, manifests, objects);
      var read, more := ReadPackages(k, repo, r, objects);
      if !read {
        return false, manifests, objects;
      }
      ReadSnoc(k, repo, i, manifests, objects, more);
      manifests := manifests[r.manifest := repo.manifestFiles[r.manifest]];
      objects := more;
    }
    ok := true;
  }

  lemma NothingRead(k: Codec, repo: Repository)
    ensures Read(k, repo, 0, map[], map[])
  {
  }

  lemma ReadObjects(k: Codec, repo: Repository, n: nat, manifests: map<string, Bytes>, objects: map<string, Bytes>)
    requires n <= |repo.receipts| && Read(k, repo, n, manifests, objects)
    ensures forall p | p in objects :: p in CutObjects(k, repo) && objects[p] == repo.objectFiles[p]
  {
    hide CutObjects;
  }

  /** All files read: exactly the cut's manifests and objects. */
  lemma ReadExactly(k: Codec, repo: Repository, manifests: map<string, Bytes>, objects: map<string, Bytes>)
    requires Read(k, repo, |repo.receipts|, manifests, objects)
    ensures manifests.Keys == CutManifests(repo) && objects.Keys == CutObjects(k, repo)
    ensures forall d | d in manifests :: d in repo.manifestFiles && manifests[d] == repo.manifestFiles[d]
    ensures forall p | p in objects :: objects[p] == repo.objectFiles[p]
  {
  }

  // ---- members by kind ------------------------------------------------------------------

  predicate In(m: Members, name: string, body: Bytes) { name in m && m[name] == body }

  ghost predicate ManifestEntry(repo: Repository, name: string, body: Bytes) {
    exists d :: d in CutManifests(repo) && d in repo.manifestFiles && name == ManifestName(d)
      && body == repo.manifestFiles[d]
  }

  ghost predicate ObjectEntry(k: Codec, repo: Repository, name: string, body: Bytes) {
    exists p :: p in CutObjects(k, repo) && name == ObjectName(p) && body == repo.objectFiles[p]
  }

  ghost predicate JournalEntry(k: Codec, rows: seq<Row>, name: string, body: Bytes) {
    exists i: nat :: i < |rows| && name == JournalName(i) && body == k.canon(RowJson(rows[i]))
  }

  ghost predicate OutboxEntry(k: Codec, rows: seq<Row>, name: string, body: Bytes) {
    exists i: nat :: i < |rows| && name == OutboxName(i) && body == k.canon(RowJson(rows[i]))
  }

  ghost predicate PointerEntry(k: Codec, rows: seq<Current>, name: string, body: Bytes) {
    exists c :: c in rows && name == PointerName(c.tenant, c.environment) && body == k.canon(CurrentJson(c))
  }

  lemma MemberKinds(k: Codec, repo: Repository, name: string, body: Bytes)
    ensures CutMember(k, repo, name, body) <==>
      || (name == DESCRIPTOR && body == k.canon(DescriptorJson(DescriptorOf(repo))))
      || ManifestEntry(repo, name, body) || ObjectEntry(k, repo, name, body)
      || JournalEntry(k, repo.journal, name, body) || OutboxEntry(k, repo.outbox, name, body)
      || PointerEntry(k, repo.current, name, body)
  {
  }

  lemma EntryNames(k: Codec, repo: Repository, name: string, body: Bytes)
    ensures ManifestEntry(repo, name, body) ==> IsManifest(name)
    ensures ObjectEntry(k, repo, name, body) ==> IsObject(name)
    ensures JournalEntry(k, repo.journal, name, body) ==> IsJournal(name)
    ensures OutboxEntry(k, repo.outbox, name, body) ==> IsOutbox(name)
    ensures PointerEntry(k, repo.current, name, body) ==> IsPointer(name)
  {
  }

  method ManifestMembers(repo: Repository, manifests: map<string, Bytes>) returns (m: Members)
    requires manifests.Keys == CutManifests(repo)
    requires forall d | d in manifests :: d in repo.manifestFiles && manifests[d] == repo.manifestFiles[d]
    ensures forall n, b :: In(m, n, b) <==> ManifestEntry(repo, n, b)
  {
    hide ManifestName, CutManifests;
    m := map d | d in manifests :: ManifestName(d) := manifests[d];
    forall n, b ensures In(m, n, b) <==> ManifestEntry(repo, n, b) {
      if In(m, n, b) {
        var d :| d in manifests && n == ManifestName(d);
        assert d in CutManifests(repo);
      }
    }
  }

  method ObjectMembers(k: Codec, repo: Repository, objects: map<string, Bytes>) returns (m: Members)
    requires objects.Keys == CutObjects(k, repo)
    requires forall p | p in objects :: p in repo.objectFiles && objects[p] == repo.objectFiles[p]
    ensures forall n, b :: In(m, n, b) <==> ObjectEntry(k, repo, n, b)
  {
    hide ObjectName;
    m := map p | p in objects :: ObjectName(p) := objects[p];
    forall n, b ensures In(m, n, b) <==> ObjectEntry(k, repo, n, b) {
      if In(m, n, b) {
        var p :| p in objects && n == ObjectName(p);
        assert p in CutObjects(k, repo);
      }
    }
  }

  method JournalMembers(k: Codec, rows: seq<Row>) returns (m: Members)
    ensures forall n, b :: In(m, n, b) <==> JournalEntry(k, rows, n, b)
  {
    m := map[];
    for i := 0 to |rows|
      invariant forall j: nat | j < i :: JournalName(j) in m && m[JournalName(j)] == k.canon(RowJson(rows[j]))
      invariant forall n | n in m :: exists j: nat :: j < i && n == JournalName(j)
    {
      forall j: nat | j < i ensures JournalName(j) != JournalName(i) { RowNamesInjective(j, i); }
      hide JournalName;
      ghost var before := m;
      m := m[JournalName(i) := k.canon(RowJson(rows[i]))];
      assert forall n | n in m :: n == JournalName(i) || n in before;
    }
    hide JournalName;
  }

  method OutboxMembers(k: Codec, rows: seq<Row>) returns (m: Members)
    ensures forall n, b :: In(m, n, b) <==> OutboxEntry(k, rows, n, b)
  {
    m := map[];
    for i := 0 to |rows|
      invariant forall j: nat | j < i :: OutboxName(j) in m && m[OutboxName(j)] == k.canon(RowJson(rows[j]))
      invariant forall n | n in m :: exists j: nat :: j < i && n == OutboxName(j)
    {
      forall j: nat | j < i ensures OutboxName(j) != OutboxName(i) { RowNamesInjective(j, i); }
      hide OutboxName;
      ghost var before := m;
      m := m[OutboxName(i) := k.canon(RowJson(rows[i]))];
      assert forall n | n in m :: n == OutboxName(i) || n in before;
    }
    hide OutboxName;
  }

  ghost predicate PointerFileOk(k: Codec, repo: Repository, c: Current) {
    var name := PointerName(c.tenant, c.environment);
    name in repo.pointerFiles && repo.pointerFiles[name] == k.canon(CurrentJson(c))
  }

  method PointerMembers(k: Codec, repo: Repository) returns (ok: bool, m: Members)
    ensures ok <==> forall c | c in repo.current :: PointerFileOk(k, repo, c)
    ensures ok ==> forall n, b :: In(m, n, b) <==> PointerEntry(k, repo.current, n, b)
  {
    hide PointerName, CurrentJson;
    m := map[];
    for i := 0 to |repo.current|
      invariant forall j | 0 <= j < i :: PointerFileOk(k, repo, repo.current[j])
      invariant forall j | 0 <= j < i :: PointerName(repo.current[j].tenant, repo.current[j].environment) in m
      invariant forall n | n in m :: PointerEntry(k, repo.current, n, m[n])
      invariant forall n | n in m :: n in repo.pointerFiles && m[n] == repo.pointerFiles[n]
    {
      var c := repo.current[i];
      var name := PointerName(c.tenant, c.environment);
      if name !in repo.pointerFiles || repo.pointerFiles[name] != k.canon(CurrentJson(c)) {
        assert c in repo.current && !PointerFileOk(k, repo, c);
        return false, m;
      }
      assert PointerEntry(k, repo.current, name, repo.pointerFiles[name]);
      hide PointerEntry;
      ghost var before := m;
      m := m[name := repo.pointerFiles[name]];
      assert forall n | n in m :: n == name || n in before;
    }
    ok := true;
    forall n, b ensures In(m, n, b) <==> PointerEntry(k, repo.current, n, b) {
      if PointerEntry(k, repo.current, n, b) {
        var c :| c in repo.current && n == PointerName(c.tenant, c.environment) && b == k.canon(CurrentJson(c));
        assert PointerFileOk(k, repo, c);
      }
    }
  }

  // ---- the cut --------------------------------------------------------------------------

  /** repository_cut: succeeds exactly on coherent authority points, and returns their member map. */
  method RepositoryCut(k: Codec, repo: Repository) returns (r: Option<Members>)
    requires AsQueried(DescriptorOf(repo))
    ensures r.Some? <==> CutOk(k, repo)
    ensures r.Some? ==> IsCut(k, repo, r.value)
  {
    var d := DescriptorOf(repo);
    var generationsOk := CheckGenerations(repo.receipts, repo.current);
    var identitiesOk := CheckIdentities(d);
    var currentOk := CheckCurrent(repo.receipts, repo.current);
    var filesOk, manifests, objects := ReadFiles(k, repo);
    var pointersOk, pointers := PointerMembers(k, repo);
    CutDecided(k, repo);
    hide CutOk, GenerationsOk, UniqueIdentities, JournalClosed, Historical, ReceiptFilesOk, PointerFileOk, IsCut;
    if !generationsOk || !identitiesOk || !currentOk || !filesOk || !pointersOk {
      return None;
    }
    ReadExactly(k, repo, manifests, objects);
    hide CutManifests, CutObjects, Read;
    var journalOk := CheckJournal(k, repo.journal, manifests.Keys);
    if !journalOk {
      return None;
    }
    var manifestMembers := ManifestMembers(repo, manifests);
    var objectMembers := ObjectMembers(k, repo, objects);
    var journal := JournalMembers(k, repo.journal);
    var outbox := OutboxMembers(k, repo.outbox);
    var first := map[DESCRIPTOR := k.canon(DescriptorJson(d))];
    Assembled(k, repo, first, manifestMembers, objectMembers, journal, outbox, pointers);
    r := Some(first + manifestMembers + objectMembers + journal + outbox + pointers);
  }

  lemma CutDecided(k: Codec, repo: Repository)
    ensures CutOk(k, repo) <==>
      && GenerationsOk(repo.receipts, repo.current) && UniqueIdentities(DescriptorOf(repo))
      && (forall c | c in repo.current :: Historical(repo.receipts, c))
      && (forall r | r in repo.receipts :: ReceiptFilesOk(k, repo, r))
      && JournalClosed(k, repo.journal, CutManifests(repo))
      && (forall c | c in repo.current :: PointerFileOk(k, repo, c))
  {
  }

  /** Merging the six parts of a cut loses no member: their names never meet. */
  lemma Assembled(k: Codec, repo: Repository, a: Members, b: Members, c: Members, j: Members, o: Members, p: Members)
    requires AsQueried(DescriptorOf(repo)) && CutOk(k, repo)
    requires a == map[DESCRIPTOR := k.canon(DescriptorJson(DescriptorOf(repo)))]
    requires forall n, body :: In(b, n, body) <==> ManifestEntry(repo, n, body)
    requires forall n, body :: In(c, n, body) <==> ObjectEntry(k, repo, n, body)
    requires forall n, body :: In(j, n, body) <==> JournalEntry(k, repo.journal, n, body)
    requires forall n, body :: In(o, n, body) <==> OutboxEntry(k, repo.outbox, n, body)
    requires forall n, body :: In(p, n, body) <==> PointerEntry(k, repo.current, n, body)
    ensures IsCut(k, repo, a + b + c + j + o + p)
  {
    hide ManifestEntry, ObjectEntry, JournalEntry, OutboxEntry, PointerEntry, AsQueried, CutOk, CutMember;
    hide IsManifest, IsObject, IsJournal, IsOutbox, IsPointer;
    forall n, body
      ensures In(b, n, body) ==> IsManifest(n)
      ensures In(c, n, body) ==> IsObject(n)
      ensures In(j, n, body) ==> IsJournal(n)
      ensures In(o, n, body) ==> IsOutbox(n)
      ensures In(p, n, body) ==> IsPointer(n)
    {
      EntryNames(k, repo, n, body);
    }
    Merged(a, b, c, j, o, p);
    var m := a + b + c + j + o + p;
    forall n, body ensures In(m, n, body) <==> CutMember(k, repo, n, body) {
      MemberKinds(k, repo, n, body);
    }
    CutFromMembers(k, repo, m);
  }

  lemma CutFromMembers(k: Codec, repo: Repository, m: Members)
    requires AsQueried(DescriptorOf(repo)) && CutOk(k, repo)
    requires forall n, body :: In(m, n, body) <==> CutMember(k, repo, n, body)
    ensures IsCut(k, repo, m)
  {
    hide AsQueried, CutOk, CutMember;
  }

  lemma Merged(a: Members, b: Members, c: Members, j: Members, o: Members, p: Members)
    requires forall n | n in a :: n == DESCRIPTOR
    requires forall n, body | In(b, n, body) :: IsManifest(n)
    requires forall n, body | In(c, n, body) :: IsObject(n)
    requires forall n, body | In(j, n, body) :: IsJournal(n)
    requires forall n, body | In(o, n, body) :: IsOutbox(n)
    requires forall n, body | In(p, n, body) :: IsPointer(n)
    ensures forall n, body :: In(a + b + c + j + o + p, n, body) <==>
      In(a, n, body) || In(b, n, body) || In(c, n, body) || In(j, n, body) || In(o, n, body) || In(p, n, body)
  {
    hide In, IsManifest, IsObject, IsJournal, IsOutbox, IsPointer;
    PartsApart(a, b, c, j, o, p);
    Joined(a, b);
    Joined(a + b, c);
    Joined(a + b + c, j);
    Joined(a + b + c + j, o);
    Joined(a + b + c + j + o, p);
  }

  lemma PartsApart(a: Members, b: Members, c: Members, j: Members, o: Members, p: Members)
    requires forall n | n in a :: n == DESCRIPTOR
    requires forall n, body | In(b, n, body) :: IsManifest(n)
    requires forall n, body | In(c, n, body) :: IsObject(n)
    requires forall n, body | In(j, n, body) :: IsJournal(n)
    requires forall n, body | In(o, n, body) :: IsOutbox(n)
    requires forall n, body | In(p, n, body) :: IsPointer(n)
    ensures a.Keys !! b.Keys !! c.Keys !! j.Keys !! o.Keys !! p.Keys
  {
    KindsExcludeAll();
    hide IsManifest, IsObject, IsJournal, IsOutbox, IsPointer;
    assert forall n | n in b :: In(b, n, b[n]);
    assert forall n | n in c :: In(c, n, c[n]);
    assert forall n | n in j :: In(j, n, j[n]);
    assert forall n | n in o :: In(o, n, o[n]);
    assert forall n | n in p :: In(p, n, p[n]);
  }

  lemma Joined(x: Members, y: Members)
    requires x.Keys !! y.Keys
    ensures (x + y).Keys == x.Keys + y.Keys
    ensures forall n, body :: In(x + y, n, body) <==> In(x, n, body) || In(y, n, body)
  {
  }
}
