/** validate_members as it runs, proved against the acceptance predicate. */
module BackupValidator {
  import opened Common
  import opened MemberNames
  import opened JsonValues
  import opened AuthorityRows
  import opened OracleDocuments
  import opened BackupOracle
  import opened BackupTheorems
  import opened BackupChecks

  // ---- bounds ---------------------------------------------------------------------------

  /** The total does not depend on the order in which members are visited. */
  lemma {:induction false} TotalWithout(m: Members, name: string)
    requires name in m
    ensures TotalBytes(m) == |m[name]| + TotalBytes(m - {name})
    decreases |m|
  {
    var n :| n in m && TotalBytes(m) == |m[n]| + TotalBytes(m - {n});
    if n != name {
      TotalWithout(m - {n}, name);
      TotalWithout(m - {name}, n);
      assert m - {n} - {name} == m - {name} - {n};
    }
  }

  method CheckBounds(m: Members) returns (ok: bool)
    ensures ok <==> InBounds(m)
  {
    if |m| > MEMBER_BOUND {
      return false;
    }
    var rest := m;
    var total := 0;
    while rest != map[]
      invariant rest.Keys <= m.Keys && forall n | n in rest :: rest[n] == m[n]
      invariant total + TotalBytes(rest) == TotalBytes(m)
      invariant forall n | n in m && n !in rest :: |m[n]| <= MEMBER_BYTES && InLayout(n)
      decreases |rest|
    {
      var name :| name in rest;
      TotalWithout(rest, name);
      hide InLayout, TotalBytes;
      if |rest[name]| > MEMBER_BYTES || !InLayout(name) {
        return false;
      }
      total := total + |rest[name]|;
      rest := rest - {name};
    }
    ok := total <= TOTAL_BYTES;
  }

  // ---- manifests and objects ------------------------------------------------------------

  /** The manifest and object dictionaries built from the members in `done`. */
  ghost predicate Collected(k: Codec, m: Members, done: set<string>, manifests: map<string, Manifest>,
                            objects: set<string>)
    requires done <= m.Keys
  {
    && (forall n | n in done && IsManifest(n) ::
          ManifestMemberOk(k, m, n) && ManifestDigest(n) in manifests
          && ManifestIn(k, m[n]) == Some(manifests[ManifestDigest(n)]))
    && (forall d | d in manifests :: exists n :: n in done && IsManifest(n) && ManifestDigest(n) == d)
    && (forall n | n in done && IsObject(n) :: k.sha(m[n]) == ObjectDigest(n) && ObjectDigest(n) in objects)
    && (forall d | d in objects :: exists n :: n in done && IsObject(n) && ObjectDigest(n) == d)
  }

  method CollectFiles(k: Codec, m: Members) returns (ok: bool, manifests: map<string, Manifest>, objects: set<string>)
    requires CollisionFree(k)
    ensures ok <==> FilesOk(k, m)
    ensures ok ==> Collected(k, m, m.Keys, manifests, objects)
  {
    manifests, objects := map[], {};
    var todo := m.Keys;
    ghost var done: set<string> := {};
    while todo != {}
      invariant todo <= m.Keys && done == m.Keys - todo
      invariant Collected(k, m, done, manifests, objects)
    {
      var name :| name in todo;
      KindsExclude(name);
      hide FilesOk;
      if IsManifest(name) {
        var manifest := ManifestIn(k, m[name]);
        if k.sha(m[name]) != ManifestDigest(name) || manifest.None? {
          return false, manifests, objects;
        }
        manifests := manifests[ManifestDigest(name) := manifest.value];
      } else if IsObject(name) {
        if k.sha(m[name]) != ObjectDigest(name) {
          return false, manifests, objects;
        }
        objects := objects + {ObjectDigest(name)};
      }
      todo, done := todo - {name}, done + {name};
    }
    assert done == m.Keys;
    ok := true;
  }

  /** The dictionaries are exactly what the members store. */
  lemma CollectedExactly(k: Codec, m: Members, manifests: map<string, Manifest>, objects: set<string>)
    requires Collected(k, m, m.Keys, manifests, objects)
    ensures manifests.Keys == ManifestDigests(m) && objects == ObjectDigests(m)
    ensures forall d, x :: Stores(k, m, d, x) <==> d in manifests && manifests[d] == x
  {
  }

  // ---- rows against members -------------------------------------------------------------

  method CheckClosure(k: Codec, m: Members, d: Descriptor, manifests: map<string, Manifest>, objects: set<string>)
    returns (ok: bool)
    requires Collected(k, m, m.Keys, manifests, objects)
    ensures ok <==>
      && (forall r | r in d.receipts :: ServesScope(k, m, r))
      && JournalClosed(k, d.journal, ManifestDigests(m)) && PackagesPresent(k, m)
  {
    CollectedExactly(k, m, manifests, objects);
    hide Collected, Stores, ManifestDigests, ObjectDigests;
    PackagesDecided(k, m, manifests, objects);
    var served := CheckServed(k, m, d.receipts, manifests);
    var closed := CheckJournal(k, d.journal, manifests.Keys);
    var present := CheckPackages(manifests, objects);
    ok := served && closed && present;
    hide ServesScope, JournalClosed, PackagesPresent;
  }

  method CheckServed(k: Codec, m: Members, receipts: seq<Receipt>, manifests: map<string, Manifest>) returns (ok: bool)
    requires forall d, x :: Stores(k, m, d, x) <==> d in manifests && manifests[d] == x
    ensures ok <==> forall r | r in receipts :: ServesScope(k, m, r)
  {
    ok := true;
    hide Stores;
    for i := 0 to |receipts|
      invariant ok <==> forall j | 0 <= j < i :: ServesScope(k, m, receipts[j])
    {
      var r := receipts[i];
      var served := r.manifest in manifests && Serves(manifests[r.manifest], r);
      assert served <==> ServesScope(k, m, r) by {
        if served { assert Stores(k, m, r.manifest, manifests[r.manifest]); }
      }
      ok := ok && served;
    }
  }

  method CheckPackages(manifests: map<string, Manifest>, objects: set<string>) returns (ok: bool)
    ensures ok <==> forall x | x in manifests :: Elements(manifests[x].packages) <= objects
  {
    ok := true;
    var todo := manifests.Keys;
    while todo != {}
      invariant todo <= manifests.Keys
      invariant ok <==> forall x | x in manifests && x !in todo :: Elements(manifests[x].packages) <= objects
    {
      var digest :| digest in todo;
      todo := todo - {digest};
      ok := ok && forall p | p in manifests[digest].packages :: p in objects;
    }
  }

  lemma PackagesDecided(k: Codec, m: Members, manifests: map<string, Manifest>, objects: set<string>)
    requires objects == ObjectDigests(m)
    requires forall d, x :: Stores(k, m, d, x) <==> d in manifests && manifests[d] == x
    ensures PackagesPresent(k, m) <==> forall x | x in manifests :: Elements(manifests[x].packages) <= objects
  {
    hide Stores, ObjectDigests;
    if PackagesPresent(k, m) {
      forall x | x in manifests ensures Elements(manifests[x].packages) <= objects {
        assert Stores(k, m, x, manifests[x]);
      }
    }
    if forall x | x in manifests :: Elements(manifests[x].packages) <= objects {
      forall d, x, p | Stores(k, m, d, x) && p in x.packages ensures p in ObjectDigests(m) {
        assert p in Elements(manifests[d].packages);
      }
    }
  }

  method CheckPresence(k: Codec, m: Members, d: Descriptor) returns (ok: bool)
    ensures ok <==> RowsPresent(k, m, d)
  {
    hide JournalName, OutboxName, PointerName;
    ok := true;
    for i := 0 to |d.journal|
      invariant ok <==> forall j | 0 <= j < i :: Holds(k, m, JournalName(j), RowJson(d.journal[j]))
    {
      ok := ok && Holds(k, m, JournalName(i), RowJson(d.journal[i]));
    }
    ghost var journalOk := ok;
    for i := 0 to |d.outbox|
      invariant ok <==> journalOk && forall j | 0 <= j < i ::
        Holds(k, m, OutboxName(j), RowJson(d.outbox[j])) && Get(d.outbox[j], "body").Str?
    {
      ok := ok && Holds(k, m, OutboxName(i), RowJson(d.outbox[i])) && Get(d.outbox[i], "body").Str?;
    }
    ghost var outboxOk := ok;
    for i := 0 to |d.current|
      invariant ok <==> outboxOk && forall j | 0 <= j < i ::
        Holds(k, m, PointerOf(d.current[j]), CurrentJson(d.current[j]))
    {
      ok := ok && Holds(k, m, PointerOf(d.current[i]), CurrentJson(d.current[i]));
    }
  }

  /** validate_members: returns the descriptor exactly of the accepted maps. */
  method ValidateMembers(k: Codec, m: Members) returns (r: Option<Descriptor>)
    requires CollisionFree(k)
    ensures r.Some? ==> AcceptsWith(k, m, r.value)
    ensures r.None? ==> !Accepts(k, m)
  {
    hide DescriptorIn, Collected, InBounds, RowsAgree, FilesOk, ServesScope, JournalClosed, PackagesPresent,
         RowsPresent, ManifestDigests, ObjectDigests;
    r := None;
    var bounded := CheckBounds(m);
    if !bounded || DESCRIPTOR !in m {
      return;
    }
    var read := DescriptorIn(k, m[DESCRIPTOR]);
    if read.None? {
      return;
    }
    var d := read.value;
    var rowsAgree := CheckRows(d);
    var filesOk, manifests, objects := CollectFiles(k, m);
    if !rowsAgree || !filesOk {
      return;
    }
    var closed := CheckClosure(k, m, d, manifests, objects);
    var present := CheckPresence(k, m, d);
    CollectedExactly(k, m, manifests, objects);
    if closed && present && |m| == 1 + |manifests| + |objects| + |d.journal| + |d.outbox| + |d.current| {
      assert |manifests| == |manifests.Keys|;
      r := Some(d);
    }
  }
}
