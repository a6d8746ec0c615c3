/** What acceptance does not check: seven ways an accepted member map can fail to be any cut. */
module BackupLimits {
  import opened Common
  import opened MemberNames
  import opened JsonValues
  import opened AuthorityRows
  import opened OracleDocuments
  import opened BackupOracle
  import opened BackupTheorems

  // ---- an unreferenced object -----------------------------------------------------------

  lemma StoresOnlyManifests(k: Codec, m: Members, m': Members)
    requires forall name | IsManifest(name) :: (name in m <==> name in m') && (name in m ==> m[name] == m'[name])
    ensures forall digest, manifest :: Stores(k, m, digest, manifest) <==> Stores(k, m', digest, manifest)
    ensures ManifestDigests(m) == ManifestDigests(m')
  {
  }

  /** Adding any object under its own hash keeps a map accepted. */
  lemma ExtraObjectAccepted(k: Codec, m: Members, d: Descriptor, blob: Bytes)
    requires AcceptsWith(k, m, d)
    requires var name := ObjectName(k.sha(blob)); name !in m && InBounds(m[name := blob])
    ensures AcceptsWith(k, m[ObjectName(k.sha(blob)) := blob], d)
  {
    hide IsManifest, IsObject, IsPointer, IsJournal, IsOutbox, ObjectName, ObjectDigest, ManifestDigest, ManifestIn,
         DescriptorIn, InBounds, RowsAgree, FilesOk, RowsPresent, JournalClosed, ServesScope, AcceptsWith, Stores,
         ManifestDigests, ObjectDigests;
    var name := ObjectName(k.sha(blob));
    var m' := m[name := blob];
    AcceptsParts(k, m, d);
    KindsExclude(name);
    KindsExclude(DESCRIPTOR);
    KindsExcludeAll();
    StoresOnlyManifests(k, m, m');
    AddedObjectDigest(m, k.sha(blob), blob);
    AddedObjectFiles(k, m, blob);
    RowsKept(k, m, m', d);
    ScopesServed(k, m, m', d);
    assert |m'| == |m| + 1;
    AcceptsFrom(k, m', d);
  }

  lemma ScopesServed(k: Codec, m: Members, m': Members, d: Descriptor)
    requires forall digest, manifest :: Stores(k, m, digest, manifest) <==> Stores(k, m', digest, manifest)
    requires forall r | r in d.receipts :: ServesScope(k, m, r)
    ensures forall r | r in d.receipts :: ServesScope(k, m', r)
  {
  }

  lemma AddedObjectFiles(k: Codec, m: Members, blob: Bytes)
    requires FilesOk(k, m) && ObjectName(k.sha(blob)) !in m && !IsManifest(ObjectName(k.sha(blob)))
    ensures FilesOk(k, m[ObjectName(k.sha(blob)) := blob])
  {
  }

  lemma AddedObjectDigest(m: Members, digest: string, blob: Bytes)
    requires ObjectName(digest) !in m
    ensures ObjectDigests(m[ObjectName(digest) := blob]) == ObjectDigests(m) + {digest}
    ensures digest !in ObjectDigests(m)
  {
    var m' := m[ObjectName(digest) := blob];
    ObjectNamesDetermined();
    hide IsObject, ObjectName, ObjectDigest;
    forall x | x in ObjectDigests(m) ensures x in ObjectDigests(m') {
      var name :| name in m && IsObject(name) && ObjectDigest(name) == x;
      assert name in m';
    }
    assert ObjectName(digest) in m';
  }

  /** Rows live outside the manifest and object members. */
  lemma RowsKept(k: Codec, m: Members, m': Members, d: Descriptor)
    requires RowsPresent(k, m, d)
    requires forall name | IsJournal(name) || IsOutbox(name) || IsPointer(name) ::
      name in m ==> name in m' && m[name] == m'[name]
    ensures RowsPresent(k, m', d)
  {
  }

  /** No repository produces the larger map when no stored manifest names the object. */
  lemma ExtraObjectIsNoCut(k: Codec, m: Members, blob: Bytes, repo: Repository)
    requires forall digest, manifest | Stores(k, m, digest, manifest) :: k.sha(blob) !in manifest.packages
    ensures !IsCut(k, repo, m[ObjectName(k.sha(blob)) := blob])
  {
    var name := ObjectName(k.sha(blob));
    var m' := m[name := blob];
    KindsExclude(name);
    StoresOnlyManifests(k, m, m');
    hide IsManifest, IsObject, IsPointer, IsJournal, IsOutbox, ObjectName, ObjectDigest, IsCut, CutObjects, Stores;
    if IsCut(k, repo, m') {
      CutObjectMember(k, repo, m', name);
      var r := NeedingReceipt(k, repo, k.sha(blob));
      CutHasManifest(k, repo, m', r);
    }
  }

  // ---- a renamed manifest ---------------------------------------------------------------

  /** A manifest member under its digest and any five characters in place of ".json". */
  function OddManifestName(digest: string, suffix: string): (r: string)
    requires |suffix| == 5
    ensures IsManifest(r) && ManifestDigest(r) == digest
  {
    "manifests/" + digest + suffix
  }

  /** The last five characters of a manifest's member name are never looked at. */
  lemma OddSuffixAccepted(k: Codec, m: Members, d: Descriptor, digest: string, suffix: string)
    requires AcceptsWith(k, m, d) && ManifestName(digest) in m && |suffix| == 5
    requires OddManifestName(digest, suffix) !in m
    requires InBounds((m - {ManifestName(digest)})[OddManifestName(digest, suffix) := m[ManifestName(digest)]])
    ensures AcceptsWith(k, (m - {ManifestName(digest)})[OddManifestName(digest, suffix) := m[ManifestName(digest)]], d)
  {
    hide IsManifest, IsObject, IsPointer, IsJournal, IsOutbox, ManifestName, OddManifestName, ManifestDigest,
         ObjectDigest, AcceptsWith, InBounds;
    var old', new' := ManifestName(digest), OddManifestName(digest, suffix);
    var m' := (m - {old'})[new' := m[old']];
    KindsExclude(old');
    KindsExclude(new');
    KindsExclude(DESCRIPTOR);
    KindsExcludeAll();
    AcceptsParts(k, m, d);
    RenamedStores(k, m, m', old', new');
    RowsKept(k, m, m', d);
    SameObjects(m, m');
    RenamedFiles(k, m, m', old', new');
    RenamedCount(m, m', old', new');
    hide *;
    SameClosure(k, m, m', d, d);
    AcceptsFrom(k, m', d);
  }

  /** What only depends on the stored manifests, the object digests and the row counts. */
  lemma SameClosure(k: Codec, m: Members, m': Members, d: Descriptor, d': Descriptor)
    requires forall digest, manifest :: Stores(k, m, digest, manifest) <==> Stores(k, m', digest, manifest)
    requires ManifestDigests(m) == ManifestDigests(m') && ObjectDigests(m) == ObjectDigests(m') && |m| == |m'|
    requires forall r | r in d'.receipts :: r in d.receipts
    requires |d'.journal| == |d.journal| && |d'.outbox| == |d.outbox| && |d'.current| == |d.current|
    requires (forall r | r in d.receipts :: ServesScope(k, m, r)) && PackagesPresent(k, m) && CountMatches(m, d)
    ensures (forall r | r in d'.receipts :: ServesScope(k, m', r)) && PackagesPresent(k, m') && CountMatches(m', d')
  {
  }

  ghost predicate Renamed(m: Members, m': Members, old': string, new': string) {
    && old' in m && new' !in m && IsManifest(old') && IsManifest(new')
    && ManifestDigest(old') == ManifestDigest(new')
    && m' == (m - {old'})[new' := m[old']]
  }

  lemma RenamedStores(k: Codec, m: Members, m': Members, old': string, new': string)
    requires Renamed(m, m', old', new')
    ensures forall digest, manifest :: Stores(k, m, digest, manifest) <==> Stores(k, m', digest, manifest)
    ensures ManifestDigests(m) == ManifestDigests(m')
  {
  }

  lemma RenamedFiles(k: Codec, m: Members, m': Members, old': string, new': string)
    requires Renamed(m, m', old', new') && FilesOk(k, m) && !IsObject(new')
    ensures FilesOk(k, m')
  {
  }

  lemma RenamedCount(m: Members, m': Members, old': string, new': string)
    requires Renamed(m, m', old', new')
    ensures |m'| == |m|
  {
  }

  lemma SameObjects(m: Members, m': Members)
    requires forall name | IsObject(name) :: name in m <==> name in m'
    ensures ObjectDigests(m) == ObjectDigests(m')
  {
  }

  /** A cut never names a manifest that way. */
  lemma OddSuffixIsNoCut(k: Codec, repo: Repository, m: Members, digest: string, suffix: string)
    requires |suffix| == 5 && suffix != ".json" && OddManifestName(digest, suffix) in m
    ensures !IsCut(k, repo, m)
  {
    assert OddManifestName(digest, suffix)[10 + |digest|..] == suffix;
    assert ManifestName(digest)[10 + |digest|..] == ".json";
    if IsCut(k, repo, m) {
      CutManifestMember(k, repo, m, OddManifestName(digest, suffix));
    }
  }

  // ---- a current row that does not repeat its receipt -----------------------------------

  /** c may stand in for row i: same scope and generation, and the identity of some receipt. Its
      manifest, its other fields, and whether that receipt is the newest, are not looked at. */
  ghost predicate StandsIn(d: Descriptor, i: nat, c: Current) {
    && i < |d.current| && CurrentScope(c) == CurrentScope(d.current[i]) && c.generation == d.current[i].generation
    && exists r :: r in d.receipts && ReceiptIdentity(r) == CurrentIdentity(c)
  }

  lemma CurrentRowUnchecked(k: Codec, m: Members, d: Descriptor, i: nat, c: Current)
    requires RoundTrips(k) && AcceptsWith(k, m, d) && StandsIn(d, i, c)
    requires forall j | 0 <= j < |d.current| :: Plain(d.current[j].tenant) && Plain(d.current[j].environment)
    requires InBounds(WithCurrent(k, m, d, i, c))
    ensures AcceptsWith(k, WithCurrent(k, m, d, i, c), Retargeted(d, i, c))
  {
    var m' := WithCurrent(k, m, d, i, c);
    AcceptsParts(k, m, d);
    RetargetedShape(d, i, c);
    hide AcceptsWith, WithCurrent;
    ScopesDiffer(d);
    PointerHeld(k, m, d, i);
    RetargetedAgree(d, i, c);
    RetargetedRows(k, m, d, i, c);
    OnlyPointerChanges(k, m, d, i, c);
    hide *;
    StoresOnlyManifests(k, m, m');
    SameObjects(m, m');
    SameFilesOk(k, m, m');
    SameClosure(k, m, m', d, Retargeted(d, i, c));
    AcceptsFrom(k, m', Retargeted(d, i, c));
  }

  lemma RetargetedShape(d: Descriptor, i: nat, c: Current)
    requires i < |d.current|
    ensures var d' := Retargeted(d, i, c);
      && d'.receipts == d.receipts && d'.journal == d.journal && d'.outbox == d.outbox && |d'.current| == |d.current|
  {
  }

  lemma ScopesDiffer(d: Descriptor)
    requires RowsAgree(d)
    ensures forall a, b | 0 <= a < b < |d.current| :: CurrentScope(d.current[a]) != CurrentScope(d.current[b])
  {
  }

  lemma PointerHeld(k: Codec, m: Members, d: Descriptor, i: nat)
    requires RowsPresent(k, m, d) && i < |d.current|
    ensures PointerOf(d.current[i]) in m
  {
  }

  lemma OnlyPointerChanges(k: Codec, m: Members, d: Descriptor, i: nat, c: Current)
    requires RoundTrips(k) && DESCRIPTOR in m && i < |d.current| && PointerOf(d.current[i]) in m
    ensures var m' := WithCurrent(k, m, d, i, c);
      && m'.Keys == m.Keys && |m'| == |m|
      && DescriptorIn(k, m'[DESCRIPTOR]) == Some(Retargeted(d, i, c))
      && forall name | IsManifest(name) || IsObject(name) ::
         (name in m <==> name in m') && (name in m ==> m[name] == m'[name])
  {
    hide DescriptorIn, DescriptorJson, CurrentJson, RowJson, IsManifest, IsObject, IsPointer, IsJournal, IsOutbox,
         PointerName;
    WrittenDescriptor(k, Retargeted(d, i, c));
    KindsExclude(PointerOf(d.current[i]));
    KindsExcludeAll();
    assert WithCurrent(k, m, d, i, c).Keys == m.Keys;
  }

  function Retargeted(d: Descriptor, i: nat, c: Current): Descriptor
    requires i < |d.current|
  {
    d.(current := d.current[i := c])
  }

  function WithCurrent(k: Codec, m: Members, d: Descriptor, i: nat, c: Current): Members
    requires i < |d.current|
  {
    m[DESCRIPTOR := k.canon(DescriptorJson(Retargeted(d, i, c)))]
     [PointerOf(d.current[i]) := k.canon(CurrentJson(c))]
  }

  lemma SameFilesOk(k: Codec, m: Members, m': Members)
    requires FilesOk(k, m)
    requires forall name | IsManifest(name) || IsObject(name) :: name in m' ==> name in m && m[name] == m'[name]
    ensures FilesOk(k, m')
  {
  }

  lemma RetargetedAgree(d: Descriptor, i: nat, c: Current)
    requires RowsAgree(d) && StandsIn(d, i, c)
    ensures RowsAgree(Retargeted(d, i, c))
  {
    RetargetedGenerations(d, i, c);
    RetargetedReceipts(d, i, c);
    hide GenerationsOk;
    assert UniqueIdentities(Retargeted(d, i, c));
  }

  lemma RetargetedReceipts(d: Descriptor, i: nat, c: Current)
    requires StandsIn(d, i, c)
    requires forall x | x in d.current :: exists r :: r in d.receipts && ReceiptIdentity(r) == CurrentIdentity(x)
    ensures forall x | x in Retargeted(d, i, c).current ::
      exists r :: r in d.receipts && ReceiptIdentity(r) == CurrentIdentity(x)
  {
    var current := Retargeted(d, i, c).current;
    forall x | x in current ensures exists r :: r in d.receipts && ReceiptIdentity(r) == CurrentIdentity(x) {
      var j :| 0 <= j < |current| && current[j] == x;
      if j != i { assert d.current[j] in d.current; }
    }
  }

  /** The rows keep their scopes and generations, place by place. */
  ghost predicate SamePlaces(a: seq<Current>, b: seq<Current>) {
    && |a| == |b|
    && forall j | 0 <= j < |a| :: CurrentScope(a[j]) == CurrentScope(b[j]) && a[j].generation == b[j].generation
  }

  lemma SameNamed(a: seq<Current>, b: seq<Current>, scope: Scope, generation: int)
    requires SamePlaces(a, b) && NamesCurrent(a, scope, generation)
    ensures NamesCurrent(b, scope, generation)
  {
    hide CurrentScope;
    var j :| 0 <= j < |a| && CurrentScope(a[j]) == scope && a[j].generation == generation;
    assert CurrentScope(b[j]) == scope && b[j].generation == generation;
  }

  lemma SamePlacesOk(receipts: seq<Receipt>, a: seq<Current>, b: seq<Current>)
    requires GenerationsOk(receipts, a) && SamePlaces(a, b)
    ensures GenerationsOk(receipts, b)
  {
    hide Generations, Contiguous, NamesCurrent, CurrentScope, ScopeOf;
    forall r | r in receipts ensures NamesCurrent(b, ScopeOf(r), |Generations(receipts, ScopeOf(r))|) {
      SameNamed(a, b, ScopeOf(r), |Generations(receipts, ScopeOf(r))|);
    }
    forall x | x in b ensures exists r :: r in receipts && ScopeOf(r) == CurrentScope(x) {
      var j :| 0 <= j < |b| && b[j] == x;
      assert a[j] in a;
    }
  }

  lemma RetargetedGenerations(d: Descriptor, i: nat, c: Current)
    requires GenerationsOk(d.receipts, d.current) && StandsIn(d, i, c)
    ensures GenerationsOk(d.receipts, Retargeted(d, i, c).current)
  {
    hide GenerationsOk, CurrentScope;
    SamePlacesOk(d.receipts, d.current, Retargeted(d, i, c).current);
  }

  lemma RetargetedRows(k: Codec, m: Members, d: Descriptor, i: nat, c: Current)
    requires RowsPresent(k, m, d) && StandsIn(d, i, c)
    requires forall a, b | 0 <= a < b < |d.current| :: CurrentScope(d.current[a]) != CurrentScope(d.current[b])
    requires forall j | 0 <= j < |d.current| :: Plain(d.current[j].tenant) && Plain(d.current[j].environment)
    ensures RowsPresent(k, WithCurrent(k, m, d, i, c), Retargeted(d, i, c))
  {
    hide DescriptorJson, CurrentJson, RowJson, JournalName, OutboxName, PointerName, IsJournal, IsOutbox, IsPointer,
         IsManifest, IsObject;
    var m' := WithCurrent(k, m, d, i, c);
    var d' := Retargeted(d, i, c);
    KindsExcludeAll();
    forall x | x in d'.current ensures Holds(k, m', PointerName(x.tenant, x.environment), CurrentJson(x)) {
      var j :| 0 <= j < |d'.current| && d'.current[j] == x;
      if j != i {
        var a, b := d.current[i], d.current[j];
        assert b in d.current && Holds(k, m, PointerOf(b), CurrentJson(b));
        if PointerOf(a) == PointerOf(b) {
          PointerInjective(a.tenant, a.environment, b.tenant, b.environment);
        }
      }
    }
    forall j | 0 <= j < |d.journal| ensures Holds(k, m', JournalName(j), RowJson(d.journal[j])) {
      assert Holds(k, m, JournalName(j), RowJson(d.journal[j]));
    }
    forall j | 0 <= j < |d.outbox| ensures Holds(k, m', OutboxName(j), RowJson(d.outbox[j])) {
      assert Holds(k, m, OutboxName(j), RowJson(d.outbox[j]));
    }
  }

  /** Such a map is no cut unless the row repeats the newest receipt of its identity. */
  lemma StrayCurrentIsNoCut(k: Codec, m: Members, d: Descriptor, repo: Repository, c: Current)
    requires RoundTrips(k) && AcceptsWith(k, m, d) && c in d.current
    requires !exists i: nat :: LastReceipt(d.receipts, i) && SameFields(c, d.receipts[i])
    ensures !IsCut(k, repo, m)
  {
    hide IsCut, RowsAgree, InBounds, FilesOk, RowsPresent, PackagesPresent, JournalClosed, CountMatches, ServesScope,
         LastReceipt, SameFields, DescriptorIn;
    if IsCut(k, repo, m) {
      CutReads(k, repo, m);
      CurrentFromReceipt(k, repo, m, c);
    }
  }

  lemma CurrentFromReceipt(k: Codec, repo: Repository, m: Members, c: Current)
    requires IsCut(k, repo, m)
    ensures c in repo.current ==> exists i: nat :: LastReceipt(repo.receipts, i) && SameFields(c, repo.receipts[i])
  {
    hide AsQueried, LastReceipt, SameFields;
  }

  // ---- rows in another order ------------------------------------------------------------

  /** The same members under another descriptor. */
  function Redescribed(k: Codec, m: Members, d: Descriptor): Members { m[DESCRIPTOR := k.canon(DescriptorJson(d))] }

  lemma {:induction false} GenerationsJoin(a: seq<Receipt>, b: seq<Receipt>, s: Scope)
    ensures Generations(a + b, s) == Generations(a, s) + Generations(b, s)
  {
    if b == [] {
      assert a + b == a;
    } else {
      var n := |b| - 1;
      GenerationsJoin(a, b[..n], s);
      assert (a + b)[..|a + b| - 1] == a + b[..n];
    }
  }

  /** The order of the receipts does not matter to a scope's set of generations. */
  lemma {:induction false} GenerationsPermuted(a: seq<Receipt>, b: seq<Receipt>, s: Scope)
    requires multiset(a) == multiset(b)
    ensures multiset(Generations(a, s)) == multiset(Generations(b, s))
    decreases |a|
  {
    assert |a| == |multiset(a)| && |b| == |multiset(b)|;
    if a != [] {
      var n := |a| - 1;
      assert a == a[..n] + [a[n]];
      assert a[n] in multiset(b);
      var i :| 0 <= i < |b| && b[i] == a[n];
      var before, after := b[..i], b[i + 1..];
      assert b == before + [b[i]] + after;
      RemoveOne(a, n);
      RemoveOne(b, i);
      assert a[..n] + a[n + 1..] == a[..n];
      GenerationsPermuted(a[..n], before + after, s);
      GenerationsJoin(a[..n], [a[n]], s);
      GenerationsJoin(before, after, s);
      GenerationsJoin(before, [b[i]], s);
      GenerationsJoin(before + [b[i]], after, s);
      hide Generations;
    }
  }

  lemma RemoveOne<T>(s: seq<T>, i: nat)
    requires i < |s|
    ensures multiset(s[..i] + s[i + 1..]) == multiset(s) - multiset{s[i]}
  {
    assert s == s[..i] + [s[i]] + s[i + 1..];
  }

  lemma PermutedGenerations(receipts: seq<Receipt>, receipts': seq<Receipt>, current: seq<Current>)
    requires GenerationsOk(receipts, current) && multiset(receipts') == multiset(receipts)
    ensures GenerationsOk(receipts', current)
  {
    SameElements(receipts, receipts');
    forall r | r in receipts'
      ensures Contiguous(Generations(receipts', ScopeOf(r)))
      ensures NamesCurrent(current, ScopeOf(r), |Generations(receipts', ScopeOf(r))|)
    {
      GenerationsPermuted(receipts, receipts', ScopeOf(r));
      var gens, gens' := Generations(receipts, ScopeOf(r)), Generations(receipts', ScopeOf(r));
      hide Generations;
      assert |gens| == |multiset(gens)| && |gens'| == |multiset(gens')|;
    }
    hide Generations, Contiguous, NamesCurrent;
  }

  lemma SameElements<T>(a: seq<T>, b: seq<T>)
    requires multiset(a) == multiset(b)
    ensures forall x :: x in a <==> x in b
  {
    forall x ensures x in a <==> x in b {
      assert x in multiset(a) <==> x in multiset(b);
    }
  }

  /** Another descriptor member that reads as the same rows, or as its receipts in another order. */
  lemma DescriptorSwapped(k: Codec, m: Members, d: Descriptor, body: Bytes, d': Descriptor)
    requires AcceptsWith(k, m, d) && DescriptorIn(k, body) == Some(d') && RowsAgree(d')
    requires d' == d.(receipts := d'.receipts) && forall r | r in d'.receipts :: r in d.receipts
    requires InBounds(m[DESCRIPTOR := body])
    ensures AcceptsWith(k, m[DESCRIPTOR := body], d')
  {
    hide AcceptsWith, InBounds, RowsAgree, DescriptorIn, IsManifest, IsObject, IsPointer, IsJournal, IsOutbox;
    var m' := m[DESCRIPTOR := body];
    AcceptsParts(k, m, d);
    KindsExcludeAll();
    assert m'.Keys == m.Keys;
    StoresOnlyManifests(k, m, m');
    SameObjects(m, m');
    SameFilesOk(k, m, m');
    RowsKept(k, m, m', d);
    hide *;
    SameClosure(k, m, m', d, d');
    SameRowsPresent(k, m', d, d');
    AcceptsFrom(k, m', d');
  }

  /** The validator never looks at the order of the rows: the receipts may be permuted. */
  lemma PermutedReceiptsAccepted(k: Codec, m: Members, d: Descriptor, receipts: seq<Receipt>)
    requires RoundTrips(k) && AcceptsWith(k, m, d) && multiset(receipts) == multiset(d.receipts)
    requires InBounds(Redescribed(k, m, d.(receipts := receipts)))
    ensures AcceptsWith(k, Redescribed(k, m, d.(receipts := receipts)), d.(receipts := receipts))
  {
    var d' := d.(receipts := receipts);
    AcceptsParts(k, m, d);
    hide AcceptsWith, InBounds, RowsAgree, DescriptorIn, DescriptorJson;
    PermutedAgree(d, receipts);
    SameElements(d.receipts, receipts);
    WrittenDescriptor(k, d');
    DescriptorSwapped(k, m, d, k.canon(DescriptorJson(d')), d');
  }

  lemma SameRowsPresent(k: Codec, m: Members, d: Descriptor, d': Descriptor)
    requires RowsPresent(k, m, d) && d'.journal == d.journal && d'.outbox == d.outbox && d'.current == d.current
    ensures RowsPresent(k, m, d')
  {
  }

  lemma PermutedAgree(d: Descriptor, receipts: seq<Receipt>)
    requires RowsAgree(d) && multiset(receipts) == multiset(d.receipts)
    ensures RowsAgree(d.(receipts := receipts))
  {
    SameElements(d.receipts, receipts);
    PermutedGenerations(d.receipts, receipts, d.current);
    hide GenerationsOk, UniqueIdentities;
    assert UniqueIdentities(d.(receipts := receipts)) by { SameUnique(d, d.(receipts := receipts)); }
  }

  lemma SameUnique(d: Descriptor, d': Descriptor)
    requires UniqueIdentities(d) && d'.journal == d.journal && d'.outbox == d.outbox
    ensures UniqueIdentities(d')
  {
  }

  /** Rows no query returns are in no cut. */
  lemma OddRowsAreNoCut(k: Codec, repo: Repository, m: Members, d: Descriptor)
    requires RoundTrips(k) && DESCRIPTOR in m && m[DESCRIPTOR] == k.canon(DescriptorJson(d)) && !AsQueried(d)
    ensures !IsCut(k, repo, m)
  {
    hide IsCut, AsQueried, DescriptorIn, DescriptorJson;
    WrittenDescriptor(k, d);
    if IsCut(k, repo, m) {
      CutReads(k, repo, m);
      CutQueried(k, repo, m);
    }
  }

  lemma CutQueried(k: Codec, repo: Repository, m: Members)
    requires IsCut(k, repo, m)
    ensures AsQueried(DescriptorOf(repo))
  {
    hide AsQueried, CutOk;
  }

  /** Exchanging two different receipts of a cut is accepted, and the result is no cut. */
  lemma SwappedReceipts(k: Codec, repo: Repository, m: Members, d: Descriptor, i: nat, j: nat)
    requires RoundTrips(k) && AcceptsWith(k, m, d) && AsQueried(d) && i < j < |d.receipts|
    requires ReceiptIdentity(d.receipts[i]) != ReceiptIdentity(d.receipts[j])
    requires InBounds(Redescribed(k, m, Swapped(d, i, j)))
    ensures AcceptsWith(k, Redescribed(k, m, Swapped(d, i, j)), Swapped(d, i, j))
    ensures !IsCut(k, repo, Redescribed(k, m, Swapped(d, i, j)))
  {
    var d' := Swapped(d, i, j);
    SwapDisorders(d, i, j);
    hide AcceptsWith, InBounds, IsCut, AsQueried, Swapped;
    assert d' == d.(receipts := d'.receipts) by { SwapKeepsOthers(d, i, j); }
    PermutedReceiptsAccepted(k, m, d, d'.receipts);
    OddRowsAreNoCut(k, repo, Redescribed(k, m, d'), d');
  }

  lemma SwapKeepsOthers(d: Descriptor, i: nat, j: nat)
    requires i < j < |d.receipts|
    ensures Swapped(d, i, j) == d.(receipts := Swapped(d, i, j).receipts)
  {
  }

  lemma SwapDisorders(d: Descriptor, i: nat, j: nat)
    requires AsQueried(d) && i < j < |d.receipts|
    requires ReceiptIdentity(d.receipts[i]) != ReceiptIdentity(d.receipts[j])
    ensures !AsQueried(Swapped(d, i, j))
  {
    var keys := ReceiptKeys(d.receipts);
    SwapLeavesOrder(keys, i, j);
    hide QueryResult, InOrder;
    assert ReceiptKeys(Swapped(d, i, j).receipts) == keys[i := keys[j]][j := keys[i]];
  }

  function Swapped(d: Descriptor, i: nat, j: nat): (r: Descriptor)
    requires i < j < |d.receipts|
    ensures multiset(r.receipts) == multiset(d.receipts)
  {
    d.(receipts := d.receipts[i := d.receipts[j]][j := d.receipts[i]])
  }

  // ---- a journal row with another column, or with a value no column holds ----------------

  function Rewritten(d: Descriptor, i: nat, name: string, v: Json): Descriptor
    requires i < |d.journal|
  {
    d.(journal := d.journal[i := d.journal[i][name := v]])
  }

  function WithRow(k: Codec, m: Members, d: Descriptor, i: nat): Members
    requires i < |d.journal|
  {
    Redescribed(k, m, d)[JournalName(i) := k.canon(RowJson(d.journal[i]))]
  }

  /** A field the oracle does not read keeps a row's identity and its closure. */
  lemma UnreadField(k: Codec, row: Row, name: string, v: Json, digests: set<string>)
    requires name !in JOURNAL_READ
    ensures IdOf(row[name := v]) == IdOf(row)
    ensures JournalRowClosed(k, row[name := v], digests) == JournalRowClosed(k, row, digests)
  {
  }

  /** A journal row with any further field, or with any value in a field the oracle does not read, is
      accepted. No query returns it when the field is no column or the value cannot be stored. */
  lemma RewrittenRow(k: Codec, repo: Repository, m: Members, d: Descriptor, i: nat, name: string, v: Json)
    requires RoundTrips(k) && AcceptsWith(k, m, d) && i < |d.journal| && name !in JOURNAL_READ
    requires InBounds(WithRow(k, m, Rewritten(d, i, name, v), i))
    ensures AcceptsWith(k, WithRow(k, m, Rewritten(d, i, name, v), i), Rewritten(d, i, name, v))
    ensures name !in JOURNAL_FIELDS || !Storable(v) ==> !IsCut(k, repo, WithRow(k, m, Rewritten(d, i, name, v), i))
  {
    hide *;
    var d' := Rewritten(d, i, name, v);
    RewrittenShape(d, i, name, v);
    var m' := WithRow(k, m, d', i);
    AcceptsParts(k, m, d);
    RewrittenAgree(d, i, name, v);
    RewrittenClosed(k, d, i, name, v, ManifestDigests(m));
    RewrittenRows(k, m, d, i, name, v);
    RowNamed(k, m, d, i);
    OnlyRowChanges(k, m, d', i);
    StoresOnlyManifests(k, m, m');
    SameObjects(m, m');
    SameFilesOk(k, m, m');
    SameClosure(k, m, m', d, d');
    AcceptsFrom(k, m', d');
    RewrittenUnqueried(d, i, name, v);
    if !AsQueried(d') { OddRowsAreNoCut(k, repo, m', d'); }
  }

  lemma RewrittenUnqueried(d: Descriptor, i: nat, name: string, v: Json)
    requires i < |d.journal|
    ensures name !in JOURNAL_FIELDS || !Storable(v) ==> !AsQueried(Rewritten(d, i, name, v))
  {
    var row := Rewritten(d, i, name, v).journal[i];
    assert row in Rewritten(d, i, name, v).journal && name in row && row[name] == v;
  }

  lemma RewrittenShape(d: Descriptor, i: nat, name: string, v: Json)
    requires i < |d.journal|
    ensures var d' := Rewritten(d, i, name, v);
      && d'.receipts == d.receipts && d'.current == d.current && d'.outbox == d.outbox && |d'.journal| == |d.journal|
  {
  }

  lemma RowNamed(k: Codec, m: Members, d: Descriptor, i: nat)
    requires RowsPresent(k, m, d) && i < |d.journal|
    ensures JournalName(i) in m
  {
    hide JournalName;
    assert Holds(k, m, JournalName(i), RowJson(d.journal[i]));
  }

  lemma OnlyRowChanges(k: Codec, m: Members, d: Descriptor, i: nat)
    requires RoundTrips(k) && DESCRIPTOR in m && i < |d.journal| && JournalName(i) in m
    ensures var m' := WithRow(k, m, d, i);
      && m'.Keys == m.Keys && |m'| == |m|
      && DESCRIPTOR in m' && m'[DESCRIPTOR] == k.canon(DescriptorJson(d))
      && DescriptorIn(k, m'[DESCRIPTOR]) == Some(d)
      && forall name | IsManifest(name) || IsObject(name) ::
         (name in m <==> name in m') && (name in m ==> m[name] == m'[name])
  {
    hide DescriptorIn, DescriptorJson, CurrentJson, RowJson, IsManifest, IsObject, IsPointer, IsJournal, IsOutbox,
         JournalName;
    WrittenDescriptor(k, d);
    KindsExclude(JournalName(i));
    KindsExcludeAll();
    assert WithRow(k, m, d, i).Keys == m.Keys;
  }

  lemma RewrittenAgree(d: Descriptor, i: nat, name: string, v: Json)
    requires RowsAgree(d) && i < |d.journal| && name !in JOURNAL_READ
    ensures RowsAgree(Rewritten(d, i, name, v))
  {
    hide GenerationsOk;
    var d' := Rewritten(d, i, name, v);
    forall j | 0 <= j < |d.journal| ensures IdOf(d'.journal[j]) == IdOf(d.journal[j]) {}
    hide IdOf, Identified;
    assert DistinctRows(d'.journal);
  }

  lemma RewrittenClosed(k: Codec, d: Descriptor, i: nat, name: string, v: Json, digests: set<string>)
    requires JournalClosed(k, d.journal, digests) && i < |d.journal| && name !in JOURNAL_READ
    ensures JournalClosed(k, Rewritten(d, i, name, v).journal, digests)
  {
    UnreadField(k, d.journal[i], name, v, digests);
    hide JournalRowClosed;
  }

  lemma RewrittenRows(k: Codec, m: Members, d: Descriptor, i: nat, name: string, v: Json)
    requires RowsPresent(k, m, d) && i < |d.journal|
    ensures RowsPresent(k, WithRow(k, m, Rewritten(d, i, name, v), i), Rewritten(d, i, name, v))
  {
    hide DescriptorJson, CurrentJson, RowJson, JournalName, OutboxName, PointerName, IsJournal, IsOutbox, IsPointer,
         IsManifest, IsObject;
    var d' := Rewritten(d, i, name, v);
    var m' := WithRow(k, m, d', i);
    KindsExclude(JournalName(i));
    KindsExcludeAll();
    forall j: nat | j != i ensures JournalName(j) != JournalName(i) { RowNamesInjective(j, i); }
    forall j | 0 <= j < |d'.journal| ensures Holds(k, m', JournalName(j), RowJson(d'.journal[j])) {
      assert Holds(k, m, JournalName(j), RowJson(d.journal[j]));
    }
    forall j | 0 <= j < |d.outbox| ensures Holds(k, m', OutboxName(j), RowJson(d.outbox[j])) {
      assert Holds(k, m, OutboxName(j), RowJson(d.outbox[j]));
    }
    forall c | c in d.current ensures Holds(k, m', PointerName(c.tenant, c.environment), CurrentJson(c)) {
      assert Holds(k, m, PointerName(c.tenant, c.environment), CurrentJson(c));
    }
  }

  // ---- a descriptor spelled otherwise ---------------------------------------------------

  /** Any canonical member that reads as the descriptor is accepted; a cut writes only one of them. */
  lemma RespelledDescriptor(k: Codec, repo: Repository, m: Members, d: Descriptor, j: Json)
    requires RoundTrips(k) && AcceptsWith(k, m, d) && ReadDescriptor(j) == Some(d) && j != DescriptorJson(d)
    requires InBounds(m[DESCRIPTOR := k.canon(j)])
    ensures AcceptsWith(k, m[DESCRIPTOR := k.canon(j)], d)
    ensures !IsCut(k, repo, m[DESCRIPTOR := k.canon(j)])
  {
    var m' := m[DESCRIPTOR := k.canon(j)];
    AcceptsParts(k, m, d);
    assert k.loads(k.canon(j)) == Some(j) && DescriptorIn(k, k.canon(j)) == Some(d);
    assert k.loads(k.canon(DescriptorJson(d))) == Some(DescriptorJson(d));
    hide AcceptsWith, InBounds, RowsAgree, DescriptorIn, ReadDescriptor, DescriptorJson, IsCut;
    DescriptorSwapped(k, m, d, k.canon(j), d);
    if IsCut(k, repo, m') {
      CutReads(k, repo, m');
      CutHasDescriptor(k, repo, m');
    }
  }

  /** The descriptor with its schema version written as 2.0. */
  function Loose(d: Descriptor): Json {
    Obj(DescriptorJson(d).fields["schema_version" := Num(Dyadic(2, 0))])
  }

  lemma LooseReads(d: Descriptor)
    ensures ReadDescriptor(Loose(d)) == Some(d) && Loose(d) != DescriptorJson(d)
  {
    DescriptorReads(d);
    hide ReadAll, Each;
    var strict := DescriptorJson(d).fields;
    assert Loose(d).fields.Keys == strict.Keys;
    assert strict["schema_version"] == Int(2);
  }

  // ---- an unreferenced manifest ---------------------------------------------------------

  ghost predicate StoresMore(k: Codec, m: Members, m': Members, digest: string, manifest: Manifest) {
    forall x, y :: Stores(k, m', x, y) <==> Stores(k, m, x, y) || (x == digest && y == manifest)
  }

  lemma AddedManifest(k: Codec, m: Members, digest: string, body: Bytes, manifest: Manifest)
    requires ManifestName(digest) !in m && ManifestIn(k, body) == Some(manifest)
    ensures var m' := m[ManifestName(digest) := body];
      && StoresMore(k, m, m', digest, manifest) && ManifestDigests(m') == ManifestDigests(m) + {digest}
  {
    hide IsManifest, ManifestDigest, ManifestName, ManifestIn;
    var name := ManifestName(digest);
    var m' := m[name := body];
    assert IsManifest(name) && ManifestDigest(name) == digest && name in m';
    assert forall n | n in m :: n in m' && m'[n] == m[n];
    assert forall n | n in m' :: n == name || n in m;
    forall x, y ensures Stores(k, m', x, y) <==> Stores(k, m, x, y) || (x == digest && y == manifest) {
      if Stores(k, m, x, y) {
        var n :| n in m && IsManifest(n) && ManifestDigest(n) == x && ManifestIn(k, m[n]) == Some(y);
        assert n in m';
      }
    }
  }

  lemma CoveredMore(k: Codec, journal: seq<Row>, digests: set<string>, more: set<string>)
    requires JournalClosed(k, journal, digests) && digests <= more
    ensures JournalClosed(k, journal, more)
  {
    forall i | 0 <= i < |journal| ensures JournalRowClosed(k, journal[i], more) {
      assert JournalRowClosed(k, journal[i], digests);
    }
  }

  lemma AddedManifestFiles(k: Codec, m: Members, body: Bytes)
    requires FilesOk(k, m) && ManifestName(k.sha(body)) !in m && ManifestIn(k, body).Some?
    requires !IsObject(ManifestName(k.sha(body)))
    ensures FilesOk(k, m[ManifestName(k.sha(body)) := body])
  {
    hide IsManifest, IsObject, ManifestDigest, ObjectDigest, ManifestName, ManifestIn;
    var m' := m[ManifestName(k.sha(body)) := body];
    forall n | n in m' && IsManifest(n) ensures ManifestMemberOk(k, m', n) {
      if n != ManifestName(k.sha(body)) { assert ManifestMemberOk(k, m, n); }
    }
  }

  lemma MoreServed(k: Codec, m: Members, m': Members, d: Descriptor, digest: string, manifest: Manifest)
    requires StoresMore(k, m, m', digest, manifest) && PackagesPresent(k, m)
    requires forall p | p in manifest.packages :: p in ObjectDigests(m)
    requires ObjectDigests(m') == ObjectDigests(m)
    requires forall r | r in d.receipts :: ServesScope(k, m, r)
    ensures PackagesPresent(k, m') && forall r | r in d.receipts :: ServesScope(k, m', r)
  {
    hide Stores, ObjectDigests, Serves;
    forall r | r in d.receipts ensures ServesScope(k, m', r) {
      assert ServesScope(k, m, r);
      var x :| Stores(k, m, r.manifest, x) && Serves(x, r);
      assert Stores(k, m', r.manifest, x);
    }
  }

  /** Adding a canonical manifest that no receipt names, under its own hash and with its packages
      present, is accepted, and the result is no cut. */
  lemma ExtraManifest(k: Codec, repo: Repository, m: Members, d: Descriptor, body: Bytes, manifest: Manifest)
    requires AcceptsWith(k, m, d) && ManifestIn(k, body) == Some(manifest) && RoundTrips(k)
    requires k.sha(body) !in ManifestDigests(m) && ManifestName(k.sha(body)) !in m
    requires forall p | p in manifest.packages :: p in ObjectDigests(m)
    requires InBounds(m[ManifestName(k.sha(body)) := body])
    ensures AcceptsWith(k, m[ManifestName(k.sha(body)) := body], d)
    ensures !IsCut(k, repo, m[ManifestName(k.sha(body)) := body])
  {
    hide IsManifest, IsObject, IsPointer, IsJournal, IsOutbox, ManifestName, ManifestDigest, ManifestIn, DescriptorIn,
         InBounds, RowsAgree, FilesOk, RowsPresent, JournalClosed, PackagesPresent, ServesScope, AcceptsWith, Stores,
         ManifestDigests, ObjectDigests, IsCut;
    var digest, name := k.sha(body), ManifestName(k.sha(body));
    var m' := m[name := body];
    AcceptsParts(k, m, d);
    KindsExclude(name);
    KindsExcludeAll();
    AddedManifest(k, m, digest, body, manifest);
    AddedManifestFiles(k, m, body);
    SameObjects(m, m');
    RowsKept(k, m, m', d);
    CoveredMore(k, d.journal, ManifestDigests(m), ManifestDigests(m'));
    MoreServed(k, m, m', d, digest, manifest);
    assert |m'| == |m| + 1;
    assert m'[DESCRIPTOR] == m[DESCRIPTOR];
    AcceptsFrom(k, m', d);
    if IsCut(k, repo, m') {
      CutReads(k, repo, m');
      CutManifestMember(k, repo, m', name);
      NamedStored(k, m, d, repo, digest);
    }
  }

  lemma NamedStored(k: Codec, m: Members, d: Descriptor, repo: Repository, digest: string)
    requires digest in CutManifests(repo) && repo.receipts == d.receipts
    requires forall r | r in d.receipts :: ServesScope(k, m, r)
    ensures digest in ManifestDigests(m)
  {
    hide IsManifest, ManifestDigest, ManifestIn;
    var r :| r in repo.receipts && r.manifest == digest;
    assert ServesScope(k, m, r);
  }
}
