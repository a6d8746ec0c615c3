/**
 Exactly which accepted member maps are cuts. An accepted map is the cut of some repository if and
 only if every manifest is stored under its own file name and named by a receipt, every object is
 named by a receipt's manifest, every current row repeats its last receipt, and the rows are what
 the four queries can return: the selected columns, storable values, ordered by identity. The
 descriptor must also be spelled as a cut spells it.
 */
module BackupExact {
  import opened Common
  import opened SetSizes
  import opened MemberNames
  import opened JsonValues
  import opened AuthorityRows
  import opened OracleDocuments
  import opened BackupOracle
  import opened BackupTheorems
  import opened BackupCut
  import opened BackupLimits

  // ---- the condition --------------------------------------------------------------------

  ghost predicate ManifestsNamed(m: Members, d: Descriptor) {
    forall name | name in m && IsManifest(name) ::
      name == ManifestName(ManifestDigest(name)) && exists r :: r in d.receipts && r.manifest == ManifestDigest(name)
  }

  ghost predicate ObjectsNamed(k: Codec, m: Members, d: Descriptor) {
    forall p | p in ObjectDigests(m) ::
      exists r, manifest :: r in d.receipts && Stores(k, m, r.manifest, manifest) && p in manifest.packages
  }

  ghost predicate CurrentFromReceipts(d: Descriptor) { forall c | c in d.current :: Historical(d.receipts, c) }

  /** The descriptor is spelled as a cut spells it: not with 2.0 for 2, nor {} or "" for an empty list. */
  ghost predicate DescriptorWritten(k: Codec, m: Members, d: Descriptor) {
    DESCRIPTOR in m && m[DESCRIPTOR] == k.canon(DescriptorJson(d))
  }

  ghost predicate Tight(k: Codec, m: Members, d: Descriptor) {
    && ManifestsNamed(m, d) && ObjectsNamed(k, m, d) && CurrentFromReceipts(d) && AsQueried(d)
    && DescriptorWritten(k, m, d)
  }

  ghost predicate PlainScopes(d: Descriptor) { forall c | c in d.current :: Plain(c.tenant) && Plain(c.environment) }

  // ---- a cut is tight -------------------------------------------------------------------

  lemma CutIsTight(k: Codec, repo: Repository, m: Members, d: Descriptor)
    requires RoundTrips(k) && AcceptsWith(k, m, d) && IsCut(k, repo, m)
    ensures Tight(k, m, d)
  {
    CutHasDescriptor(k, repo, m);
    DescriptorDecodes(k, repo, m, d);
    forall name | name in m && IsManifest(name)
      ensures name == ManifestName(ManifestDigest(name)) && exists r ::
        r in d.receipts && r.manifest == ManifestDigest(name)
    {
      CutManifestMember(k, repo, m, name);
      var r :| r in repo.receipts && r.manifest == ManifestDigest(name);
      assert r in d.receipts;
    }
    CutDigests(k, repo, m);
    forall p | p in ObjectDigests(m)
      ensures exists r, manifest :: r in d.receipts && Stores(k, m, r.manifest, manifest) && p in manifest.packages
    {
      var r := NeedingReceipt(k, repo, p);
      CutHasManifest(k, repo, m, r);
      assert r in d.receipts;
    }
    CurrentInCut(k, repo);
    assert DescriptorWritten(k, m, d);
    hide *;
    TightFrom(k, m, d);
  }

  lemma TightFrom(k: Codec, m: Members, d: Descriptor)
    requires forall name | name in m && IsManifest(name) ::
      name == ManifestName(ManifestDigest(name)) && exists r :: r in d.receipts && r.manifest == ManifestDigest(name)
    requires forall p | p in ObjectDigests(m) ::
      exists r, manifest :: r in d.receipts && Stores(k, m, r.manifest, manifest) && p in manifest.packages
    requires (forall c | c in d.current :: Historical(d.receipts, c)) && AsQueried(d) && DescriptorWritten(k, m, d)
    ensures Tight(k, m, d)
  {
    hide AsQueried, DescriptorWritten, ManifestName, ManifestDigest, IsManifest, ObjectDigests, Stores, Historical;
  }

  lemma DescriptorDecodes(k: Codec, repo: Repository, m: Members, d: Descriptor)
    requires RoundTrips(k) && AcceptsWith(k, m, d) && m[DESCRIPTOR] == k.canon(DescriptorJson(DescriptorOf(repo)))
    ensures d == DescriptorOf(repo)
  {
    AcceptsParts(k, m, d);
    WrittenDescriptor(k, DescriptorOf(repo));
    hide AcceptsWith, DescriptorIn;
  }

  lemma CurrentInCut(k: Codec, repo: Repository)
    requires CutOk(k, repo)
    ensures forall c | c in repo.current :: Historical(repo.receipts, c)
  {
    hide SameFields, LastReceipt;
  }

  // ---- the repository behind a tight map ------------------------------------------------

  ghost function RepositoryOf(m: Members, d: Descriptor): Repository {
    Repository(d.receipts, d.current, d.journal, d.outbox,
               map x | x in ManifestDigests(m) && ManifestName(x) in m :: m[ManifestName(x)],
               map p | p in ObjectDigests(m) && ObjectName(p) in m :: m[ObjectName(p)], m)
  }

  /** The manifest of a receipt is read back from the map. */
  lemma ManifestRead(k: Codec, m: Members, d: Descriptor, digest: string, manifest: Manifest)
    requires FilesOk(k, m) && ManifestsNamed(m, d) && Stores(k, m, digest, manifest)
    ensures ManifestName(digest) in m && digest in ManifestDigests(m)
    ensures ManifestFile(k, RepositoryOf(m, d), digest) == Some(manifest)
    ensures RepositoryOf(m, d).manifestFiles[digest] == m[ManifestName(digest)]
  {
    hide ManifestName, ManifestDigest, IsManifest, ObjectName, ObjectDigest, IsObject;
    var name :| name in m && IsManifest(name) && ManifestDigest(name) == digest
                && ManifestIn(k, m[name]) == Some(manifest);
    assert name == ManifestName(digest) && ManifestMemberOk(k, m, name);
  }

  lemma ObjectRead(k: Codec, m: Members, d: Descriptor, p: string)
    requires FilesOk(k, m) && p in ObjectDigests(m)
    ensures ObjectName(p) in m && ObjectFileOk(k, RepositoryOf(m, d), p)
    ensures RepositoryOf(m, d).objectFiles[p] == m[ObjectName(p)]
  {
    var name :| name in m && IsObject(name) && ObjectDigest(name) == p;
    assert name == ObjectName(p);
    hide ManifestName, ManifestDigest, IsManifest, ObjectName, ObjectDigest, IsObject;
  }

  lemma SameManifests(k: Codec, m: Members, d: Descriptor)
    requires ManifestsNamed(m, d) && forall r | r in d.receipts :: ServesScope(k, m, r)
    ensures CutManifests(RepositoryOf(m, d)) == ManifestDigests(m)
  {
    hide ManifestName, ManifestDigest, IsManifest, ObjectName, ObjectDigest, IsObject;
    var repo := RepositoryOf(m, d);
    forall x | x in ManifestDigests(m) ensures x in CutManifests(repo) {
      var name :| name in m && IsManifest(name) && ManifestDigest(name) == x;
      var r :| r in d.receipts && r.manifest == x;
      assert r in repo.receipts;
    }
    forall x | x in CutManifests(repo) ensures x in ManifestDigests(m) {
      var r :| r in repo.receipts && r.manifest == x;
      assert ServesScope(k, m, r);
    }
  }

  lemma ReceiptsRead(k: Codec, m: Members, d: Descriptor)
    requires FilesOk(k, m) && ManifestsNamed(m, d) && PackagesPresent(k, m)
    requires forall r | r in d.receipts :: ServesScope(k, m, r)
    ensures forall r | r in d.receipts :: ReceiptFilesOk(k, RepositoryOf(m, d), r)
  {
    forall r | r in d.receipts ensures ReceiptFilesOk(k, RepositoryOf(m, d), r) {
      assert ServesScope(k, m, r);
      var manifest :| Stores(k, m, r.manifest, manifest) && Serves(manifest, r);
      ManifestRead(k, m, d, r.manifest, manifest);
      forall p | p in manifest.packages ensures ObjectFileOk(k, RepositoryOf(m, d), p) { ObjectRead(k, m, d, p); }
      hide Stores, ObjectFileOk, ManifestFile, RepositoryOf, FilesOk, ManifestsNamed, PackagesPresent;
    }
  }

  lemma NeededHere(k: Codec, repo: Repository, r: Receipt, manifest: Manifest, p: string)
    requires r in repo.receipts && ManifestFile(k, repo, r.manifest) == Some(manifest) && p in manifest.packages
    requires p in repo.objectFiles
    ensures p in CutObjects(k, repo)
  {
    hide ManifestFile;
    assert Needs(k, repo, p);
  }

  lemma ObjectFilesHere(k: Codec, m: Members, d: Descriptor)
    ensures forall p | p in CutObjects(k, RepositoryOf(m, d)) :: p in ObjectDigests(m)
  {
    hide Needs, ManifestName, ObjectName, ObjectDigests, ManifestDigests;
  }

  lemma ObjectHere(k: Codec, repo: Repository, p: string)
    requires ObjectFileOk(k, repo, p)
    ensures p in repo.objectFiles
  {
  }

  lemma SameObjectsNeeded(k: Codec, m: Members, d: Descriptor)
    requires FilesOk(k, m) && ManifestsNamed(m, d) && ObjectsNamed(k, m, d)
    ensures CutObjects(k, RepositoryOf(m, d)) == ObjectDigests(m)
  {
    hide FilesOk, ManifestsNamed, RepositoryOf, CutObjects, ManifestFile, ObjectFileOk, Stores, ManifestName,
         ObjectName;
    var repo := RepositoryOf(m, d);
    RepositoryRows(m, d);
    forall p | p in ObjectDigests(m) ensures p in CutObjects(k, repo) {
      var r, manifest :| r in d.receipts && Stores(k, m, r.manifest, manifest) && p in manifest.packages;
      ManifestRead(k, m, d, r.manifest, manifest);
      ObjectRead(k, m, d, p);
      ObjectHere(k, repo, p);
      NeededHere(k, repo, r, manifest, p);
    }
    ObjectFilesHere(k, m, d);
  }

  lemma CutSucceeds(k: Codec, m: Members, d: Descriptor)
    requires AcceptsWith(k, m, d) && Tight(k, m, d)
    ensures CutOk(k, RepositoryOf(m, d))
  {
    AcceptsParts(k, m, d);
    RowsConsistent(d);
    SameManifests(k, m, d);
    ReceiptsRead(k, m, d);
    PointersHeld(k, m, d);
    CutDecided(k, RepositoryOf(m, d));
    RepositoryRows(m, d);
    hide *;
    assert forall c | c in d.current :: Historical(d.receipts, c) by { CurrentHistorical(k, m, d); }
  }

  lemma RowsConsistent(d: Descriptor)
    requires RowsAgree(d)
    ensures GenerationsOk(d.receipts, d.current) && UniqueIdentities(d)
  {
    hide GenerationsOk, UniqueIdentities;
  }

  lemma CurrentHistorical(k: Codec, m: Members, d: Descriptor)
    requires Tight(k, m, d)
    ensures forall c | c in d.current :: Historical(d.receipts, c)
  {
    hide ManifestsNamed, ObjectsNamed, Historical;
  }

  lemma PointersHeld(k: Codec, m: Members, d: Descriptor)
    requires RowsPresent(k, m, d)
    ensures forall c | c in d.current :: PointerFileOk(k, RepositoryOf(m, d), c)
  {
    hide PointerName, JournalName, OutboxName, ManifestName, ObjectName, IsManifest, IsObject;
    forall c | c in d.current ensures PointerFileOk(k, RepositoryOf(m, d), c) {
      assert Holds(k, m, PointerName(c.tenant, c.environment), CurrentJson(c));
    }
  }

  lemma RepositoryRows(m: Members, d: Descriptor)
    ensures var repo := RepositoryOf(m, d);
      && repo.receipts == d.receipts && repo.current == d.current && repo.journal == d.journal
         && repo.outbox == d.outbox
      && repo.pointerFiles == m
    ensures DescriptorOf(RepositoryOf(m, d)) == d
  {
    hide ManifestName, ObjectName, ManifestDigests, ObjectDigests;
  }

  // ---- no member is left over -----------------------------------------------------------

  ghost function Names(k: Codec, repo: Repository): set<string> {
    {DESCRIPTOR} + ManifestNames(repo) + ObjectNames(k, repo) + JournalNames(repo) + OutboxNames(repo)
      + PointerNames(repo)
  }

  /** The names of a cut of the repository are all in the map. */
  lemma NamesPresent(k: Codec, m: Members, d: Descriptor, name: string)
    requires AcceptsWith(k, m, d) && Tight(k, m, d) && NamedByCut(k, RepositoryOf(m, d), name)
    ensures name in m
  {
    var repo := RepositoryOf(m, d);
    AcceptsParts(k, m, d);
    RepositoryRows(m, d);
    RowsConsistent(d);
    SameManifests(k, m, d);
    SameObjectsNeeded(k, m, d);
    if name in ManifestNames(repo) {
      FileNamePresent(k, m, d, name);
    } else if name in ObjectNames(k, repo) {
      var p :| p in CutObjects(k, repo) && name == ObjectName(p);
      ObjectRead(k, m, d, p);
    } else if name != DESCRIPTOR {
      hide AcceptsWith, Tight;
      RowNameHeld(k, repo, m, name);
    }
  }

  lemma FileNamePresent(k: Codec, m: Members, d: Descriptor, name: string)
    requires ManifestsNamed(m, d) && CutManifests(RepositoryOf(m, d)) == ManifestDigests(m)
    requires name in ManifestNames(RepositoryOf(m, d))
    ensures name in m && IsManifest(name) && RepositoryOf(m, d).manifestFiles.Keys >= {ManifestDigest(name)}
    ensures RepositoryOf(m, d).manifestFiles[ManifestDigest(name)] == m[name]
      && name == ManifestName(ManifestDigest(name))
  {
    hide ManifestName, ManifestDigest, IsManifest, ObjectName;
    var x :| x in ManifestDigests(m) && name == ManifestName(x);
    var held :| held in m && IsManifest(held) && ManifestDigest(held) == x;
    assert held == name;
  }

  /** Counting leaves no room for any other member. */
  lemma KeysAreNames(k: Codec, m: Members, d: Descriptor)
    requires AcceptsWith(k, m, d) && Tight(k, m, d) && PlainScopes(d)
    ensures m.Keys == Names(k, RepositoryOf(m, d))
  {
    hide *;
    var repo := RepositoryOf(m, d);
    AcceptsParts(k, m, d);
    RepositoryRows(m, d);
    TextBodies(k, m, d);
    WellNamedHere(m, d);
    ScopesDiffer(d);
    TightNames(k, m, d);
    SameManifests(k, m, d);
    SameObjectsNeeded(k, m, d);
    Counted(m, d);
    NamesAre(k, repo);
    forall name | name in Names(k, repo) ensures name in m { NamesPresent(k, m, d, name); }
    RowNameCounts(repo);
    FileNameCounts(k, repo);
    PointerCount(repo);
    NamesDisjoint(k, repo);
    SizesAdd(Names(k, repo), ManifestNames(repo), ObjectNames(k, repo), JournalNames(repo), OutboxNames(repo),
      PointerNames(repo));
    SameSize(Names(k, repo), m.Keys);
  }

  lemma Counted(m: Members, d: Descriptor)
    requires CountMatches(m, d)
    ensures |m.Keys| == 1 + |ManifestDigests(m)| + |ObjectDigests(m)| + |d.journal| + |d.outbox| + |d.current|
  {
    hide ManifestDigests, ObjectDigests;
    assert |m| == |m.Keys|;
  }

  lemma NamesAre(k: Codec, repo: Repository)
    ensures Names(k, repo) == {DESCRIPTOR} + ManifestNames(repo) + ObjectNames(k, repo) + JournalNames(repo)
                              + OutboxNames(repo) + PointerNames(repo)
    ensures forall name :: name in Names(k, repo) <==> NamedByCut(k, repo, name)
  {
    hide ManifestNames, ObjectNames, JournalNames, OutboxNames, PointerNames;
  }

  lemma TextBodies(k: Codec, m: Members, d: Descriptor)
    requires RowsPresent(k, m, d)
    ensures forall i | 0 <= i < |d.outbox| :: Get(d.outbox[i], "body").Str?
  {
    hide OutboxName, JournalName, PointerName;
    assert forall i | 0 <= i < |d.outbox| :: Holds(k, m, OutboxName(i), RowJson(d.outbox[i]));
  }

  lemma WellNamedHere(m: Members, d: Descriptor)
    requires PlainScopes(d) && forall i | 0 <= i < |d.outbox| :: Get(d.outbox[i], "body").Str?
    ensures WellNamed(RepositoryOf(m, d))
  {
    hide ManifestName, ObjectName;
  }

  // ---- a tight map is a cut -------------------------------------------------------------

  lemma MemberIsCutMember(k: Codec, m: Members, d: Descriptor, name: string)
    requires AcceptsWith(k, m, d) && Tight(k, m, d) && PlainScopes(d) && name in m
    ensures CutMember(k, RepositoryOf(m, d), name, m[name])
  {
    hide *;
    var repo := RepositoryOf(m, d);
    KeysAreNames(k, m, d);
    NamesAre(k, repo);
    AcceptsParts(k, m, d);
    RepositoryRows(m, d);
    RowsConsistent(d);
    TightNames(k, m, d);
    MemberKinds(k, repo, name, m[name]);
    NamedOneWay(k, repo, name);
    if name == DESCRIPTOR {
    } else if name in ManifestNames(repo) {
      SameManifests(k, m, d);
      FileNamePresent(k, m, d, name);
      ManifestEntryHere(repo, name, ManifestDigest(name));
    } else if name in ObjectNames(k, repo) {
      SameObjectsNeeded(k, m, d);
      ObjectEntryHere(k, m, d, name);
    } else {
      RowEntryHere(k, m, d, repo, name);
    }
  }

  lemma NamedOneWay(k: Codec, repo: Repository, name: string)
    requires NamedByCut(k, repo, name)
    ensures name == DESCRIPTOR || name in ManifestNames(repo) || name in ObjectNames(k, repo)
         || name in JournalNames(repo) || name in OutboxNames(repo) || name in PointerNames(repo)
  {
    hide ManifestNames, ObjectNames, JournalNames, OutboxNames, PointerNames;
  }

  lemma ObjectEntryHere(k: Codec, m: Members, d: Descriptor, name: string)
    requires FilesOk(k, m) && name in ObjectNames(k, RepositoryOf(m, d))
    requires CutObjects(k, RepositoryOf(m, d)) == ObjectDigests(m)
    ensures name in m && ObjectEntry(k, RepositoryOf(m, d), name, m[name])
  {
    hide FilesOk, ObjectName, CutObjects, RepositoryOf, ObjectDigests;
    var p :| p in CutObjects(k, RepositoryOf(m, d)) && name == ObjectName(p);
    ObjectRead(k, m, d, p);
  }

  lemma TightNames(k: Codec, m: Members, d: Descriptor)
    requires Tight(k, m, d)
    ensures ManifestsNamed(m, d) && ObjectsNamed(k, m, d) && AsQueried(d)
    ensures DESCRIPTOR in m && m[DESCRIPTOR] == k.canon(DescriptorJson(d))
  {
    hide ManifestsNamed, ObjectsNamed, CurrentFromReceipts, AsQueried, DescriptorJson;
  }

  lemma ManifestEntryHere(repo: Repository, name: string, digest: string)
    requires name in ManifestNames(repo) && digest in repo.manifestFiles && name == ManifestName(digest)
    ensures ManifestEntry(repo, name, repo.manifestFiles[digest])
  {
    var x :| x in CutManifests(repo) && name == ManifestName(x);
    hide ManifestName, CutManifests;
  }

  lemma RowEntryHere(k: Codec, m: Members, d: Descriptor, repo: Repository, name: string)
    requires repo.journal == d.journal && repo.outbox == d.outbox && repo.current == d.current
    requires RowsPresent(k, m, d) && name in m
    requires name in JournalNames(repo) || name in OutboxNames(repo) || name in PointerNames(repo)
    ensures JournalEntry(k, repo.journal, name, m[name]) || OutboxEntry(k, repo.outbox, name, m[name])
         || PointerEntry(k, repo.current, name, m[name])
  {
    hide JournalName, OutboxName, PointerName;
    if name in JournalNames(repo) {
      var i :| i in Below(|repo.journal|) && name == JournalName(i);
      assert Holds(k, m, JournalName(i), RowJson(d.journal[i]));
    } else if name in OutboxNames(repo) {
      var i :| i in Below(|repo.outbox|) && name == OutboxName(i);
      assert Holds(k, m, OutboxName(i), RowJson(d.outbox[i]));
    } else {
      var c :| c in Elements(repo.current) && name == PointerOf(c);
      assert Holds(k, m, PointerName(c.tenant, c.environment), CurrentJson(c));
    }
  }

  lemma CutMemberIsMember(k: Codec, m: Members, d: Descriptor, name: string, body: Bytes)
    requires AcceptsWith(k, m, d) && Tight(k, m, d) && PlainScopes(d) && CutMember(k, RepositoryOf(m, d), name, body)
    ensures name in m && m[name] == body
  {
    var repo := RepositoryOf(m, d);
    AcceptsParts(k, m, d);
    RepositoryRows(m, d);
    RowsConsistent(d);
    MemberKinds(k, repo, name, body);
    hide CutMember, AcceptsWith;
    if name == DESCRIPTOR && body == k.canon(DescriptorJson(DescriptorOf(repo))) {
      hide Tight;
    } else if ManifestEntry(repo, name, body) || ObjectEntry(k, repo, name, body) {
      FileEntryHere(k, m, d, name, body);
    } else {
      hide Tight;
      RowMember(k, m, d, name, body);
    }
  }

  lemma FileEntryHere(k: Codec, m: Members, d: Descriptor, name: string, body: Bytes)
    requires ManifestEntry(RepositoryOf(m, d), name, body) || ObjectEntry(k, RepositoryOf(m, d), name, body)
    ensures name in m && m[name] == body
  {
    hide ManifestName, ObjectName, ManifestDigest, ObjectDigest, IsManifest, IsObject;
  }

  lemma RowMember(k: Codec, m: Members, d: Descriptor, name: string, body: Bytes)
    requires RowsPresent(k, m, d)
    requires JournalEntry(k, d.journal, name, body) || OutboxEntry(k, d.outbox, name, body)
      || PointerEntry(k, d.current, name, body)
    ensures name in m && m[name] == body
  {
    hide JournalName, OutboxName, PointerName;
    if JournalEntry(k, d.journal, name, body) {
      var i: nat :| i < |d.journal| && name == JournalName(i) && body == k.canon(RowJson(d.journal[i]));
      assert Holds(k, m, JournalName(i), RowJson(d.journal[i]));
    } else if OutboxEntry(k, d.outbox, name, body) {
      var i: nat :| i < |d.outbox| && name == OutboxName(i) && body == k.canon(RowJson(d.outbox[i]));
      assert Holds(k, m, OutboxName(i), RowJson(d.outbox[i]));
    } else {
      var c :| c in d.current && name == PointerName(c.tenant, c.environment) && body == k.canon(CurrentJson(c));
      assert Holds(k, m, PointerName(c.tenant, c.environment), CurrentJson(c));
    }
  }

  lemma TightIsCut(k: Codec, m: Members, d: Descriptor)
    requires AcceptsWith(k, m, d) && Tight(k, m, d) && PlainScopes(d)
    ensures IsCut(k, RepositoryOf(m, d), m)
  {
    var repo := RepositoryOf(m, d);
    CutSucceeds(k, m, d);
    TightNames(k, m, d);
    AcceptsParts(k, m, d);
    RowsConsistent(d);
    RepositoryRows(m, d);
    hide *;
    forall name, body ensures In(m, name, body) <==> CutMember(k, repo, name, body) {
      if CutMember(k, repo, name, body) {
        CutMemberIsMember(k, m, d, name, body);
        InFrom(m, name, body);
      }
      if In(m, name, body) {
        InGives(m, name, body);
        MemberIsCutMember(k, m, d, name);
      }
    }
    CutFromMembers(k, repo, m);
  }

  lemma InFrom(m: Members, name: string, body: Bytes)
    requires name in m && m[name] == body
    ensures In(m, name, body)
  {
  }

  lemma InGives(m: Members, name: string, body: Bytes)
    requires In(m, name, body)
    ensures name in m && m[name] == body
  {
  }

  /** The gap between accepting and being cut, closed exactly. */
  lemma AcceptedIsCutExactly(k: Codec, m: Members, d: Descriptor)
    requires RoundTrips(k) && AcceptsWith(k, m, d) && PlainScopes(d)
    ensures (exists repo :: IsCut(k, repo, m)) <==> Tight(k, m, d)
  {
    if repo :| IsCut(k, repo, m) {
      CutIsTight(k, repo, m, d);
    }
    hide IsCut, AcceptsWith;
    if Tight(k, m, d) {
      TightIsCut(k, m, d);
    }
  }
}
