/** Cuts are accepted, damaged cuts are not, and acceptance reaches exactly this much further. */
module BackupTheorems {
  import opened Common
  import opened MemberNames
  import opened JsonValues
  import opened AuthorityRows
  import opened OracleDocuments
  import opened BackupOracle

  // ---- counting -------------------------------------------------------------------------

  ghost predicate InjectiveOn<T(!new), U>(s: set<T>, f: T -> U) {
    forall x, y :: x in s && y in s && f(x) == f(y) ==> x == y
  }

  ghost function Image<T(!new), U>(s: set<T>, f: T -> U): set<U> { set x | x in s :: f(x) }

  lemma {:induction false} ImageSize<T(!new), U>(s: set<T>, f: T -> U)
    requires InjectiveOn(s, f)
    ensures |Image(s, f)| == |s|
    decreases |s|
  {
    if s != {} {
      var x :| x in s;
      var rest := s - {x};
      ImageSize(rest, f);
      assert Image(s, f) == Image(rest, f) + {f(x)};
      assert f(x) !in Image(rest, f);
    }
  }

  ghost function Below(n: nat): (s: set<nat>)
    ensures |s| == n
    ensures forall i: nat :: i in s <==> i < n
  {
    if n == 0 then {} else Below(n - 1) + {n - 1}
  }

  /** A sequence without repetition has as many elements as places. */
  lemma {:induction false} DistinctSize<T>(s: seq<T>)
    requires forall i, j | 0 <= i < j < |s| :: s[i] != s[j]
    ensures |set x | x in s| == |s|
  {
    if s != [] {
      var n := |s| - 1;
      DistinctSize(s[..n]);
      assert (set x | x in s) == (set x | x in s[..n]) + {s[n]};
    }
  }

  /** A written descriptor member is read as the descriptor. */
  lemma WrittenDescriptor(k: Codec, d: Descriptor)
    requires RoundTrips(k)
    ensures DescriptorIn(k, k.canon(DescriptorJson(d))) == Some(d)
  {
    DescriptorReads(d);
    hide DescriptorJson, ReadDescriptor;
    assert k.loads(k.canon(DescriptorJson(d))) == Some(DescriptorJson(d));
  }

  // ---- the members of a cut, kind by kind -----------------------------------------------

  lemma CutManifestMember(k: Codec, repo: Repository, m: Members, name: string)
    requires IsCut(k, repo, m) && name in m && IsManifest(name)
    ensures ManifestDigest(name) in CutManifests(repo) && name == ManifestName(ManifestDigest(name))
    ensures ManifestDigest(name) in repo.manifestFiles && m[name] == repo.manifestFiles[ManifestDigest(name)]
  {
    hide IsManifest, IsObject, IsPointer, IsJournal, IsOutbox;
    KindsExclude(name);
    assert CutMember(k, repo, name, m[name]);
  }

  lemma CutObjectMember(k: Codec, repo: Repository, m: Members, name: string)
    requires IsCut(k, repo, m) && name in m && IsObject(name)
    ensures ObjectDigest(name) in CutObjects(k, repo) && m[name] == repo.objectFiles[ObjectDigest(name)]
  {
    hide IsManifest, IsObject, IsPointer, IsJournal, IsOutbox;
    KindsExclude(name);
    assert CutMember(k, repo, name, m[name]);
  }

  /** The manifest a receipt names is a member of the cut, under the receipt's digest. */
  lemma CutHasManifest(k: Codec, repo: Repository, m: Members, r: Receipt)
    requires IsCut(k, repo, m) && r in repo.receipts
    ensures r.manifest in repo.manifestFiles && ManifestFile(k, repo, r.manifest).Some?
    ensures ManifestName(r.manifest) in m && m[ManifestName(r.manifest)] == repo.manifestFiles[r.manifest]
    ensures Stores(k, m, r.manifest, ManifestFile(k, repo, r.manifest).value)
  {
    hide IsManifest, IsObject, IsPointer, IsJournal, IsOutbox;
    assert ReceiptFilesOk(k, repo, r);
    assert r.manifest in CutManifests(repo);
    assert CutMember(k, repo, ManifestName(r.manifest), repo.manifestFiles[r.manifest]);
  }

  /** What the cut stores under a digest is the decoded file of some receipt's manifest. */
  lemma CutStores(k: Codec, repo: Repository, m: Members, digest: string, manifest: Manifest)
    requires IsCut(k, repo, m) && Stores(k, m, digest, manifest)
    ensures exists r :: r in repo.receipts && r.manifest == digest
    ensures ManifestFile(k, repo, digest) == Some(manifest)
  {
    hide ManifestName, ObjectName, JournalName, OutboxName, PointerName, IsManifest, IsObject, IsPointer, IsJournal,
         IsOutbox;
    var name :| name in m && IsManifest(name) && ManifestDigest(name) == digest
                && ManifestIn(k, m[name]) == Some(manifest);
    CutManifestMember(k, repo, m, name);
    var r :| r in repo.receipts && r.manifest == digest;
    assert ReceiptFilesOk(k, repo, r);
  }

  /** Every package of a cut's manifests was read from a self-hashed object file. */
  lemma NeededFile(k: Codec, repo: Repository, p: string)
    requires CutOk(k, repo) && Needs(k, repo, p)
    ensures p in CutObjects(k, repo) && ObjectFileOk(k, repo, p)
  {
    var r :| r in repo.receipts && ManifestFile(k, repo, r.manifest).Some?
             && p in ManifestFile(k, repo, r.manifest).value.packages;
    assert ReceiptFilesOk(k, repo, r);
    hide *;
  }

  lemma NeededObject(k: Codec, repo: Repository, p: string)
    requires p in CutObjects(k, repo)
    ensures p in repo.objectFiles
  {
  }

  lemma CutHasObject(k: Codec, repo: Repository, m: Members, p: string)
    requires IsCut(k, repo, m) && Needs(k, repo, p)
    ensures p in CutObjects(k, repo) && ObjectFileOk(k, repo, p)
    ensures ObjectName(p) in m && m[ObjectName(p)] == repo.objectFiles[p]
  {
    hide CutOk, CutObjects, Needs, ObjectFileOk, ManifestName, ObjectName, JournalName, OutboxName, PointerName,
         IsManifest, IsObject, IsPointer, IsJournal, IsOutbox, DescriptorJson, CurrentJson, AsQueried;
    NeededFile(k, repo, p);
    NeededObject(k, repo, p);
    assert CutMember(k, repo, ObjectName(p), repo.objectFiles[p]);
  }

  lemma CutDigests(k: Codec, repo: Repository, m: Members)
    requires IsCut(k, repo, m)
    ensures ManifestDigests(m) == CutManifests(repo)
    ensures ObjectDigests(m) == CutObjects(k, repo)
  {
    hide ManifestName, ObjectName, JournalName, OutboxName, PointerName, IsManifest, IsObject, IsPointer, IsJournal,
         IsOutbox;
    forall d | d in ManifestDigests(m) ensures d in CutManifests(repo) {
      var name :| name in m && IsManifest(name) && ManifestDigest(name) == d;
      CutManifestMember(k, repo, m, name);
    }
    forall d | d in CutManifests(repo) ensures d in ManifestDigests(m) {
      var r :| r in repo.receipts && r.manifest == d;
      CutHasManifest(k, repo, m, r);
    }
    forall p | p in ObjectDigests(m) ensures p in CutObjects(k, repo) {
      var name :| name in m && IsObject(name) && ObjectDigest(name) == p;
      CutObjectMember(k, repo, m, name);
    }
    forall p | p in CutObjects(k, repo) ensures p in ObjectDigests(m) {
      CutHasObject(k, repo, m, p);
      assert ObjectName(p) in m;
    }
  }

  lemma CutFiles(k: Codec, repo: Repository, m: Members)
    requires IsCut(k, repo, m)
    ensures FilesOk(k, m)
  {
    forall name | name in m && IsManifest(name) ensures ManifestMemberOk(k, m, name) {
      CutManifestHashed(k, repo, m, name);
    }
    forall name | name in m && IsObject(name) ensures k.sha(m[name]) == ObjectDigest(name) {
      CutObjectHashed(k, repo, m, name);
    }
    hide *;
  }

  lemma CutManifestHashed(k: Codec, repo: Repository, m: Members, name: string)
    requires IsCut(k, repo, m) && name in m && IsManifest(name)
    ensures ManifestMemberOk(k, m, name)
  {
    CutManifestMember(k, repo, m, name);
    var r :| r in repo.receipts && r.manifest == ManifestDigest(name);
    assert ReceiptFilesOk(k, repo, r);
  }

  lemma CutObjectHashed(k: Codec, repo: Repository, m: Members, name: string)
    requires IsCut(k, repo, m) && name in m && IsObject(name)
    ensures k.sha(m[name]) == ObjectDigest(name)
  {
    CutObjectMember(k, repo, m, name);
    CutHasObject(k, repo, m, ObjectDigest(name));
  }

  lemma CutRows(k: Codec, repo: Repository, m: Members)
    requires IsCut(k, repo, m) && WellNamed(repo)
    ensures RowsPresent(k, m, DescriptorOf(repo))
  {
    hide ManifestName, ObjectName, JournalName, OutboxName, PointerName, IsManifest, IsObject, IsPointer, IsJournal,
         IsOutbox;
    forall i | 0 <= i < |repo.journal| ensures Holds(k, m, JournalName(i), RowJson(repo.journal[i])) {
      assert CutMember(k, repo, JournalName(i), k.canon(RowJson(repo.journal[i])));
    }
    forall i | 0 <= i < |repo.outbox| ensures Holds(k, m, OutboxName(i), RowJson(repo.outbox[i])) {
      assert CutMember(k, repo, OutboxName(i), k.canon(RowJson(repo.outbox[i])));
    }
    forall c | c in repo.current ensures Holds(k, m, PointerName(c.tenant, c.environment), CurrentJson(c)) {
      assert CutMember(k, repo, PointerName(c.tenant, c.environment), k.canon(CurrentJson(c)));
    }
  }

  /** The pointer name of a current row. */
  function PointerOf(c: Current): string { PointerName(c.tenant, c.environment) }

  ghost function Elements<T>(s: seq<T>): set<T> { set x | x in s }

  ghost function PointerNames(repo: Repository): set<string> { Image(Elements(repo.current), PointerOf) }
  ghost function JournalNames(repo: Repository): set<string> { Image(Below(|repo.journal|), JournalName) }
  ghost function OutboxNames(repo: Repository): set<string> { Image(Below(|repo.outbox|), OutboxName) }
  ghost function ManifestNames(repo: Repository): set<string> { Image(CutManifests(repo), ManifestName) }
  ghost function ObjectNames(k: Codec, repo: Repository): set<string> { Image(CutObjects(k, repo), ObjectName) }

  lemma RowNameCounts(repo: Repository)
    ensures |JournalNames(repo)| == |repo.journal|
    ensures |OutboxNames(repo)| == |repo.outbox|
  {
    forall i: nat, j: nat ensures (JournalName(i) == JournalName(j) ==> i == j)
      && (OutboxName(i) == OutboxName(j) ==> i == j) {
      RowNamesInjective(i, j);
    }
    ImageSize(Below(|repo.journal|), JournalName);
    ImageSize(Below(|repo.outbox|), OutboxName);
  }

  lemma FileNameCounts(k: Codec, repo: Repository)
    ensures |ManifestNames(repo)| == |CutManifests(repo)|
    ensures |ObjectNames(k, repo)| == |CutObjects(k, repo)|
  {
    hide ManifestDigest, ObjectDigest;
    forall d, d' | ManifestName(d) == ManifestName(d') ensures d == d' {
      assert ManifestDigest(ManifestName(d)) == ManifestDigest(ManifestName(d'));
    }
    forall d, d' | ObjectName(d) == ObjectName(d') ensures d == d' {
      assert ObjectDigest(ObjectName(d)) == ObjectDigest(ObjectName(d'));
    }
    ImageSize(CutManifests(repo), ManifestName);
    ImageSize(CutObjects(k, repo), ObjectName);
  }

  /** Distinct plain scopes have distinct pointer names. */
  lemma PointerCount(repo: Repository)
    requires WellNamed(repo)
    requires forall i, j | 0 <= i < j < |repo.current| :: CurrentScope(repo.current[i]) != CurrentScope(repo.current[j])
    ensures |PointerNames(repo)| == |repo.current|
  {
    var rows := repo.current;
    DistinctSize(rows);
    forall a, b | a in rows && b in rows && PointerOf(a) == PointerOf(b) ensures a == b {
      PointerInjective(a.tenant, a.environment, b.tenant, b.environment);
      var i :| 0 <= i < |rows| && rows[i] == a;
      var j :| 0 <= j < |rows| && rows[j] == b;
      assert CurrentScope(rows[i]) == CurrentScope(rows[j]);
    }
    ImageSize(Elements(rows), PointerOf);
  }

  ghost predicate NamedByCut(k: Codec, repo: Repository, name: string) {
    || name == DESCRIPTOR || name in ManifestNames(repo) || name in ObjectNames(k, repo)
    || name in JournalNames(repo) || name in OutboxNames(repo) || name in PointerNames(repo)
  }

  lemma MemberNamed(k: Codec, repo: Repository, m: Members, name: string)
    requires IsCut(k, repo, m) && name in m
    ensures NamedByCut(k, repo, name)
  {
    assert CutMember(k, repo, name, m[name]);
    hide IsCut, CutOk;
    CutMemberNamed(k, repo, name, m[name]);
  }

  lemma CutMemberNamed(k: Codec, repo: Repository, name: string, body: Bytes)
    requires CutMember(k, repo, name, body)
    ensures NamedByCut(k, repo, name)
  {
    hide ManifestName, ObjectName, JournalName, OutboxName, PointerName, IsManifest, IsObject, IsPointer, IsJournal,
         IsOutbox;
    if c :| c in repo.current && name == PointerOf(c) {
      assert c in Elements(repo.current);
    }
  }

  /** A cut's names are the descriptor's, the files', the rows' and the pointers'. */
  lemma CutKeys(k: Codec, repo: Repository, m: Members)
    requires IsCut(k, repo, m) && WellNamed(repo)
    ensures m.Keys == {DESCRIPTOR} + ManifestNames(repo) + ObjectNames(k, repo) + JournalNames(repo)
                      + OutboxNames(repo) + PointerNames(repo)
  {
    hide *;
    forall name ensures name in m <==> NamedByCut(k, repo, name) {
      if name in m { MemberNamed(k, repo, m, name); }
      if NamedByCut(k, repo, name) { NameInCut(k, repo, m, name); }
    }
    NamedKeys(k, repo, m);
  }

  lemma NamedKeys(k: Codec, repo: Repository, m: Members)
    requires forall name :: name in m <==> NamedByCut(k, repo, name)
    ensures m.Keys == {DESCRIPTOR} + ManifestNames(repo) + ObjectNames(k, repo) + JournalNames(repo)
                      + OutboxNames(repo) + PointerNames(repo)
  {
    hide ManifestNames, ObjectNames, JournalNames, OutboxNames, PointerNames;
  }

  lemma NameInCut(k: Codec, repo: Repository, m: Members, name: string)
    requires IsCut(k, repo, m) && WellNamed(repo) && NamedByCut(k, repo, name)
    ensures name in m
  {
    if name == DESCRIPTOR {
      CutHasDescriptor(k, repo, m);
    } else if name in ManifestNames(repo) {
      var d :| d in CutManifests(repo) && name == ManifestName(d);
      var r :| r in repo.receipts && r.manifest == d;
      CutHasManifest(k, repo, m, r);
    } else if name in ObjectNames(k, repo) {
      var p :| p in CutObjects(k, repo) && name == ObjectName(p);
      CutHasObject(k, repo, m, p);
    } else {
      CutRows(k, repo, m);
      RowNameHeld(k, repo, m, name);
    }
  }

  lemma RowNameHeld(k: Codec, repo: Repository, m: Members, name: string)
    requires RowsPresent(k, m, DescriptorOf(repo))
    requires name in JournalNames(repo) || name in OutboxNames(repo) || name in PointerNames(repo)
    ensures name in m
  {
  }

  lemma CutHasDescriptor(k: Codec, repo: Repository, m: Members)
    requires IsCut(k, repo, m)
    ensures DESCRIPTOR in m && m[DESCRIPTOR] == k.canon(DescriptorJson(DescriptorOf(repo)))
  {
    assert CutMember(k, repo, DESCRIPTOR, k.canon(DescriptorJson(DescriptorOf(repo))));
  }

  /** The descriptor read from a cut is the repository's. */
  lemma CutReads(k: Codec, repo: Repository, m: Members)
    requires RoundTrips(k) && IsCut(k, repo, m)
    ensures DESCRIPTOR in m && DescriptorIn(k, m[DESCRIPTOR]) == Some(DescriptorOf(repo))
  {
    CutHasDescriptor(k, repo, m);
    WrittenDescriptor(k, DescriptorOf(repo));
    hide IsCut, DescriptorIn, DescriptorJson;
  }

  lemma CutCount(k: Codec, repo: Repository, m: Members)
    requires IsCut(k, repo, m) && WellNamed(repo)
    ensures CountMatches(m, DescriptorOf(repo))
  {
    CutKeys(k, repo, m);
    CutDigests(k, repo, m);
    RowNameCounts(repo);
    FileNameCounts(k, repo);
    PointerCount(repo);
    NamesDisjoint(k, repo);
    SizesAdd(m.Keys, ManifestNames(repo), ObjectNames(k, repo), JournalNames(repo), OutboxNames(repo),
      PointerNames(repo));
  }

  lemma SizesAdd(all: set<string>, s1: set<string>, s2: set<string>, s3: set<string>, s4: set<string>, s5: set<string>)
    requires all == {DESCRIPTOR} + s1 + s2 + s3 + s4 + s5
    requires DESCRIPTOR !in s1 && {DESCRIPTOR} + s1 !! s2 && {DESCRIPTOR} + s1 + s2 !! s3
    requires {DESCRIPTOR} + s1 + s2 + s3 !! s4 && {DESCRIPTOR} + s1 + s2 + s3 + s4 !! s5
    ensures |all| == 1 + |s1| + |s2| + |s3| + |s4| + |s5|
  {
  }

  lemma NamesDisjoint(k: Codec, repo: Repository)
    ensures DESCRIPTOR !in ManifestNames(repo)
    ensures {DESCRIPTOR} + ManifestNames(repo) !! ObjectNames(k, repo)
    ensures {DESCRIPTOR} + ManifestNames(repo) + ObjectNames(k, repo) !! JournalNames(repo)
    ensures {DESCRIPTOR} + ManifestNames(repo) + ObjectNames(k, repo) + JournalNames(repo) !! OutboxNames(repo)
    ensures {DESCRIPTOR} + ManifestNames(repo) + ObjectNames(k, repo) + JournalNames(repo) + OutboxNames(repo)
            !! PointerNames(repo)
  {
    KindsExcludeAll();
    hide IsManifest, IsObject, IsPointer, IsJournal, IsOutbox, ManifestName, ObjectName, JournalName, OutboxName,
         PointerName, ManifestDigest, ObjectDigest;
    assert forall name | name in ManifestNames(repo) :: IsManifest(name);
    assert forall name | name in ObjectNames(k, repo) :: IsObject(name);
    assert forall name | name in JournalNames(repo) :: IsJournal(name);
    assert forall name | name in OutboxNames(repo) :: IsOutbox(name);
    assert forall name | name in PointerNames(repo) :: IsPointer(name);
  }

  lemma KindsExcludeAll()
    ensures forall name | IsManifest(name) ::
      name != DESCRIPTOR && !IsObject(name) && !IsPointer(name) && !IsJournal(name) && !IsOutbox(name)
    ensures forall name | IsObject(name) ::
      name != DESCRIPTOR && !IsPointer(name) && !IsJournal(name) && !IsOutbox(name)
    ensures forall name | IsPointer(name) :: name != DESCRIPTOR && !IsJournal(name) && !IsOutbox(name)
    ensures forall name | IsJournal(name) :: name != DESCRIPTOR && !IsOutbox(name)
    ensures forall name | IsOutbox(name) :: name != DESCRIPTOR
  {
    forall name: string
      ensures IsManifest(name) ==>
        name != DESCRIPTOR && !IsObject(name) && !IsPointer(name) && !IsJournal(name) && !IsOutbox(name)
      ensures IsObject(name) ==> name != DESCRIPTOR && !IsPointer(name) && !IsJournal(name) && !IsOutbox(name)
      ensures IsPointer(name) ==> name != DESCRIPTOR && !IsJournal(name) && !IsOutbox(name)
      ensures IsJournal(name) ==> name != DESCRIPTOR && !IsOutbox(name)
      ensures IsOutbox(name) ==> name != DESCRIPTOR
    {
      KindsExclude(name);
    }
  }

  lemma CutServes(k: Codec, repo: Repository, m: Members)
    requires IsCut(k, repo, m)
    ensures forall r | r in repo.receipts :: ServesScope(k, m, r)
  {
    hide CutMember, AsQueried, Stores, ManifestFile;
    forall r | r in repo.receipts ensures ServesScope(k, m, r) {
      CutHasManifest(k, repo, m, r);
      assert ReceiptFilesOk(k, repo, r);
    }
  }

  lemma CutPackages(k: Codec, repo: Repository, m: Members)
    requires IsCut(k, repo, m)
    ensures PackagesPresent(k, m)
  {
    hide IsCut, Stores, ManifestFile, ObjectFileOk, CutObjects, ObjectDigests;
    CutDigests(k, repo, m);
    forall digest, manifest, p | Stores(k, m, digest, manifest) && p in manifest.packages
      ensures p in ObjectDigests(m)
    {
      CutStores(k, repo, m, digest, manifest);
      CutHasObject(k, repo, m, p);
    }
  }

  lemma CutCloses(k: Codec, repo: Repository, m: Members)
    requires IsCut(k, repo, m)
    ensures RowsAgree(DescriptorOf(repo)) && JournalClosed(k, repo.journal, ManifestDigests(m))
  {
    CutDigests(k, repo, m);
    CutRowsAgree(k, repo);
    hide RowsAgree, CutManifests, ManifestDigests, JournalClosed;
  }

  /** Every in-bounds member map that repository_cut produces is accepted, with its own descriptor. */
  lemma CutAccepted(k: Codec, repo: Repository, m: Members)
    requires RoundTrips(k) && IsCut(k, repo, m) && WellNamed(repo) && InBounds(m)
    ensures AcceptsWith(k, m, DescriptorOf(repo))
  {
    hide *;
    CutReads(k, repo, m);
    CutFiles(k, repo, m);
    CutRows(k, repo, m);
    CutCount(k, repo, m);
    CutServes(k, repo, m);
    CutPackages(k, repo, m);
    CutCloses(k, repo, m);
    RepositoryDescriptor(repo);
    AcceptsFrom(k, m, DescriptorOf(repo));
  }

  lemma RepositoryDescriptor(repo: Repository)
    ensures var d := DescriptorOf(repo);
      d.receipts == repo.receipts && d.current == repo.current && d.journal == repo.journal && d.outbox == repo.outbox
  {
  }

  lemma AcceptsParts(k: Codec, m: Members, d: Descriptor)
    requires AcceptsWith(k, m, d)
    ensures DESCRIPTOR in m && DescriptorIn(k, m[DESCRIPTOR]) == Some(d) && RowsAgree(d) && FilesOk(k, m)
    ensures forall r | r in d.receipts :: ServesScope(k, m, r)
    ensures JournalClosed(k, d.journal, ManifestDigests(m)) && PackagesPresent(k, m) && RowsPresent(k, m, d)
      && CountMatches(m, d)
  {
  }

  lemma AcceptsFrom(k: Codec, m: Members, d: Descriptor)
    requires DESCRIPTOR in m && DescriptorIn(k, m[DESCRIPTOR]) == Some(d) && RowsAgree(d) && FilesOk(k, m)
    requires InBounds(m) && forall r | r in d.receipts :: ServesScope(k, m, r)
    requires JournalClosed(k, d.journal, ManifestDigests(m)) && PackagesPresent(k, m) && RowsPresent(k, m, d)
      && CountMatches(m, d)
    ensures AcceptsWith(k, m, d)
  {
  }

  lemma CutRowsAgree(k: Codec, repo: Repository)
    requires CutOk(k, repo)
    ensures RowsAgree(DescriptorOf(repo))
  {
  }

  // ---- damage ---------------------------------------------------------------------------

  /** The descriptor bytes of an accepted map determine its rows. */
  lemma SameDescriptor(k: Codec, m: Members, d: Descriptor, d': Descriptor)
    requires DESCRIPTOR in m && m[DESCRIPTOR] == k.canon(DescriptorJson(d)) && RoundTrips(k)
    requires AcceptsWith(k, m, d')
    ensures d' == d
  {
    WrittenDescriptor(k, d);
    hide DescriptorIn, DescriptorJson;
  }

  /** Removing any one member of a cut makes it rejected. */
  lemma RemovalRejected(k: Codec, repo: Repository, m: Members, name: string)
    requires RoundTrips(k) && IsCut(k, repo, m) && WellNamed(repo) && name in m
    ensures !Accepts(k, m - {name})
  {
    var m' := m - {name};
    var d := DescriptorOf(repo);
    CutHasDescriptor(k, repo, m);
    assert CutMember(k, repo, name, m[name]);
    hide IsCut, CutOk, ManifestName, ObjectName, JournalName, OutboxName, PointerName;
    if d' :| AcceptsWith(k, m', d') {
      SameDescriptor(k, m', d, d');
      if r :| r in repo.receipts && name == ManifestName(r.manifest) {
        MissingManifest(k, repo, m, r);
      } else if p :| p in CutObjects(k, repo) && name == ObjectName(p) {
        MissingObject(k, repo, m, p);
      } else {
        MissingRow(k, repo, m', name, m[name]);
      }
    }
  }

  lemma MissingManifest(k: Codec, repo: Repository, m: Members, r: Receipt)
    requires IsCut(k, repo, m) && r in repo.receipts
    ensures !ServesScope(k, m - {ManifestName(r.manifest)}, r)
  {
    var m' := m - {ManifestName(r.manifest)};
    if ServesScope(k, m', r) {
      var manifest :| Stores(k, m', r.manifest, manifest);
      var other :| other in m' && IsManifest(other) && ManifestDigest(other) == r.manifest;
      CutManifestMember(k, repo, m, other);
    }
  }

  lemma MissingObject(k: Codec, repo: Repository, m: Members, p: string)
    requires IsCut(k, repo, m) && p in CutObjects(k, repo)
    ensures !PackagesPresent(k, m - {ObjectName(p)})
  {
    hide *;
    var r := NeedingReceipt(k, repo, p);
    var name := ManifestName(r.manifest);
    CutHasManifest(k, repo, m, r);
    FileDecodes(k, repo, r.manifest);
    KindsExclude(name);
    StoresStill(k, m, m - {ObjectName(p)}, name, r.manifest, ManifestFile(k, repo, r.manifest).value);
    DroppedObject(m, p);
    NeedsObject(k, m - {ObjectName(p)}, r.manifest, ManifestFile(k, repo, r.manifest).value, p);
  }

  lemma NeedingReceipt(k: Codec, repo: Repository, p: string) returns (r: Receipt)
    requires p in CutObjects(k, repo)
    ensures r in repo.receipts && ManifestFile(k, repo, r.manifest).Some?
    ensures p in ManifestFile(k, repo, r.manifest).value.packages
  {
    r :| r in repo.receipts && ManifestFile(k, repo, r.manifest).Some?
         && p in ManifestFile(k, repo, r.manifest).value.packages;
  }

  lemma FileDecodes(k: Codec, repo: Repository, digest: string)
    requires ManifestFile(k, repo, digest).Some?
    ensures digest in repo.manifestFiles
    ensures ManifestIn(k, repo.manifestFiles[digest]) == Some(ManifestFile(k, repo, digest).value)
  {
  }

  lemma StoresStill(k: Codec, m: Members, m': Members, name: string, digest: string, manifest: Manifest)
    requires name in m && IsManifest(name) && ManifestDigest(name) == digest
    requires ManifestIn(k, m[name]) == Some(manifest)
    requires name in m' && m'[name] == m[name]
    ensures Stores(k, m', digest, manifest)
  {
  }

  lemma DroppedObject(m: Members, p: string)
    ensures p !in ObjectDigests(m - {ObjectName(p)})
  {
    ObjectNamesDetermined();
    hide ObjectName, IsObject, ObjectDigest;
  }

  lemma NeedsObject(k: Codec, m: Members, digest: string, manifest: Manifest, p: string)
    requires Stores(k, m, digest, manifest) && p in manifest.packages && p !in ObjectDigests(m)
    ensures !PackagesPresent(k, m)
  {
  }

  lemma ObjectNamesDetermined()
    ensures forall name | IsObject(name) :: ObjectName(ObjectDigest(name)) == name
  {
  }

  lemma MissingRow(k: Codec, repo: Repository, m': Members, name: string, body: Bytes)
    requires CutMember(k, repo, name, body) && name !in m' && name != DESCRIPTOR
    requires !exists r :: r in repo.receipts && name == ManifestName(r.manifest)
    requires !exists p :: p in CutObjects(k, repo) && name == ObjectName(p)
    ensures !RowsPresent(k, m', DescriptorOf(repo))
  {
  }

  /** Changing any member of a cut other than the descriptor makes it rejected. */
  lemma ChangeRejected(k: Codec, repo: Repository, m: Members, name: string, body: Bytes)
    requires RoundTrips(k) && CollisionFree(k) && IsCut(k, repo, m) && WellNamed(repo)
    requires name in m && name != DESCRIPTOR && body != m[name]
    ensures !Accepts(k, m[name := body])
  {
    var m' := m[name := body];
    CutHasDescriptor(k, repo, m);
    CutFiles(k, repo, m);
    assert CutMember(k, repo, name, m[name]);
    hide IsCut, CutOk, IsManifest, IsObject;
    if d' :| AcceptsWith(k, m', d') {
      SameDescriptor(k, m', DescriptorOf(repo), d');
      if IsManifest(name) {
        ChangedManifest(k, m, m', name);
      } else if IsObject(name) {
        ChangedObject(k, m, m', name);
      } else {
        ChangedRow(k, repo, m', name, m[name]);
      }
    }
  }

  lemma ChangedManifest(k: Codec, m: Members, m': Members, name: string)
    requires CollisionFree(k) && FilesOk(k, m) && name in m && name in m' && IsManifest(name) && m'[name] != m[name]
    ensures !FilesOk(k, m')
  {
  }

  lemma ChangedObject(k: Codec, m: Members, m': Members, name: string)
    requires CollisionFree(k) && FilesOk(k, m) && name in m && name in m' && IsObject(name) && m'[name] != m[name]
    ensures !FilesOk(k, m')
  {
  }

  lemma ChangedRow(k: Codec, repo: Repository, m': Members, name: string, body: Bytes)
    requires CutMember(k, repo, name, body) && name != DESCRIPTOR && !IsManifest(name) && !IsObject(name)
    requires name in m' && m'[name] != body
    ensures !RowsPresent(k, m', DescriptorOf(repo))
  {
  }

  /** Two accepted maps with the same descriptor agree on everything the descriptor refers to:
      rows, pointers, every receipt's manifest, and every package those manifests name. */
  lemma SameDescriptorSameClosure(k: Codec, a: Members, b: Members, d: Descriptor)
    requires CollisionFree(k) && AcceptsWith(k, a, d) && Accepts(k, b)
    requires DESCRIPTOR in b && a[DESCRIPTOR] == b[DESCRIPTOR]
    ensures forall i: nat | i < |d.journal| :: SameMember(a, b, JournalName(i))
    ensures forall i: nat | i < |d.outbox| :: SameMember(a, b, OutboxName(i))
    ensures forall c | c in d.current :: SameMember(a, b, PointerName(c.tenant, c.environment))
    ensures forall r, manifest | r in d.receipts ::
      Stores(k, a, r.manifest, manifest) <==> Stores(k, b, r.manifest, manifest)
    ensures forall r, manifest, p | r in d.receipts && Stores(k, a, r.manifest, manifest) && p in manifest.packages ::
      SameMember(a, b, ObjectName(p))
    ensures forall name | name in a && name in b && (IsManifest(name) || IsObject(name)) :: a[name] == b[name]
  {
    var d' :| AcceptsWith(k, b, d');
    assert d' == d;
    SameRows(k, a, b, d);
    SameFiles(k, a, b);
    forall r, manifest | r in d.receipts
      ensures Stores(k, a, r.manifest, manifest) <==> Stores(k, b, r.manifest, manifest)
    {
      if Stores(k, a, r.manifest, manifest) { StoredOnBoth(k, a, b, r, manifest); }
      if Stores(k, b, r.manifest, manifest) { StoredOnBoth(k, b, a, r, manifest); }
    }
    forall r, manifest, p | r in d.receipts && Stores(k, a, r.manifest, manifest) && p in manifest.packages
      ensures SameMember(a, b, ObjectName(p))
    {
      PackageMember(k, a, r.manifest, manifest, p);
      PackageMember(k, b, r.manifest, manifest, p);
    }
  }

  /** A package of a stored manifest is a member under its own digest. */
  lemma PackageMember(k: Codec, m: Members, digest: string, manifest: Manifest, p: string)
    requires PackagesPresent(k, m) && Stores(k, m, digest, manifest) && p in manifest.packages
    ensures ObjectName(p) in m
  {
    var name :| name in m && IsObject(name) && ObjectDigest(name) == p;
    assert name == ObjectName(p);
  }

  predicate SameMember(a: Members, b: Members, name: string) { name in a && name in b && a[name] == b[name] }

  lemma SameRows(k: Codec, a: Members, b: Members, d: Descriptor)
    requires RowsPresent(k, a, d) && RowsPresent(k, b, d)
    ensures forall i: nat | i < |d.journal| :: SameMember(a, b, JournalName(i))
    ensures forall i: nat | i < |d.outbox| :: SameMember(a, b, OutboxName(i))
    ensures forall c | c in d.current :: SameMember(a, b, PointerName(c.tenant, c.environment))
  {
  }

  lemma SameFiles(k: Codec, a: Members, b: Members)
    requires CollisionFree(k) && FilesOk(k, a) && FilesOk(k, b)
    ensures forall name | name in a && name in b && (IsManifest(name) || IsObject(name)) :: a[name] == b[name]
  {
  }

  lemma StoredOnBoth(k: Codec, a: Members, b: Members, r: Receipt, manifest: Manifest)
    requires CollisionFree(k) && FilesOk(k, a) && FilesOk(k, b)
    requires ServesScope(k, b, r) && Stores(k, a, r.manifest, manifest)
    ensures Stores(k, b, r.manifest, manifest)
  {
  }
}
