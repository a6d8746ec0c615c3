/** The member names of a backup archive: five prefixes, and names that cannot be confused. */
module MemberNames {
  import opened Decimals
  const DESCRIPTOR := "descriptor.json"

  predicate StartsWith(name: string, prefix: string) { prefix <= name }

  predicate IsManifest(name: string) { StartsWith(name, "manifests/") }
  predicate IsObject(name: string) { StartsWith(name, "objects/") }
  predicate IsPointer(name: string) { StartsWith(name, "deployments/") }
  predicate IsJournal(name: string) { StartsWith(name, "journal/") }
  predicate IsOutbox(name: string) { StartsWith(name, "outbox/") }

  predicate InLayout(name: string) {
    name == DESCRIPTOR || IsManifest(name) || IsObject(name) || IsPointer(name) || IsJournal(name) || IsOutbox(name)
  }

  /** name[len("manifests/"):-len(".json")]: whatever the last five characters are. */
  function ManifestDigest(name: string): string
    requires IsManifest(name)
  {
    if |name| >= 15 then name[10..|name| - 5] else ""
  }

  function ObjectDigest(name: string): string
    requires IsObject(name)
  {
    name[8..]
  }

  function ManifestName(digest: string): (r: string)
    ensures IsManifest(r) && ManifestDigest(r) == digest
  {
    "manifests/" + digest + ".json"
  }

  function ObjectName(digest: string): (r: string)
    ensures IsObject(r) && ObjectDigest(r) == digest
  {
    "objects/" + digest
  }

  // ---- six-digit row indices ------------------------------------------------------------

  function Zeros(n: nat): string { seq(n, _ => '0') }

  function Pad6(n: nat): string {
    var d := Digits(n);
    (if |d| < 6 then Zeros(6 - |d|) else "") + d
  }

  lemma {:induction false} ZerosValue(k: nat, s: string)
    ensures Value(Zeros(k) + s) == Value(s)
    decreases |s|, k
  {
    if s != "" {
      assert (Zeros(k) + s)[..k + |s| - 1] == Zeros(k) + s[..|s| - 1];
      ZerosValue(k, s[..|s| - 1]);
    } else if k > 0 {
      assert (Zeros(k) + s)[..k - 1] == Zeros(k - 1) + s;
      ZerosValue(k - 1, s);
    }
  }

  lemma PadValue(n: nat)
    ensures Value(Pad6(n)) == n
  {
    DigitsValue(n);
    var d := Digits(n);
    if |d| < 6 { ZerosValue(6 - |d|, d); } else { assert "" + d == d; }
  }

  function JournalName(index: nat): (r: string)
    ensures IsJournal(r)
  {
    "journal/" + Pad6(index) + ".json"
  }

  function OutboxName(index: nat): (r: string)
    ensures IsOutbox(r)
  {
    "outbox/" + Pad6(index) + ".json"
  }

  /** Distinct row indices have distinct member names. */
  lemma RowNamesInjective(i: nat, j: nat)
    ensures JournalName(i) == JournalName(j) ==> i == j
    ensures OutboxName(i) == OutboxName(j) ==> i == j
  {
    PadValue(i);
    PadValue(j);
    assert JournalName(i)[8..|JournalName(i)| - 5] == Pad6(i);
    assert JournalName(j)[8..|JournalName(j)| - 5] == Pad6(j);
    assert OutboxName(i)[7..|OutboxName(i)| - 5] == Pad6(i);
    assert OutboxName(j)[7..|OutboxName(j)| - 5] == Pad6(j);
  }

  // ---- current pointers -----------------------------------------------------------------

  /** A path segment that pathlib keeps as it is and the file system can name. */
  predicate Plain(s: string) { s != "" && s != "." && '/' !in s && '\0' !in s }

  function PointerName(tenant: string, environment: string): (r: string)
    ensures IsPointer(r)
  {
    "deployments/" + tenant + "/" + environment + "/current.json"
  }

  /** With slash-free segments, the path determines the scope. */
  lemma PointerInjective(t: string, e: string, t': string, e': string)
    requires '/' !in t && '/' !in e && '/' !in t' && '/' !in e'
    requires PointerName(t, e) == PointerName(t', e')
    ensures t == t' && e == e'
  {
    var tail := "/current.json";
    var a, b := PointerName(t, e), PointerName(t', e');
    assert a == "deployments/" + (t + "/" + e) + tail;
    assert b == "deployments/" + (t' + "/" + e') + tail;
    assert a[12..|a| - |tail|] == t + "/" + e;
    assert b[12..|b| - |tail|] == t' + "/" + e';
    SlashSplits(t, e, t', e');
  }

  lemma {:induction false} SlashSplits(t: string, e: string, t': string, e': string)
    requires '/' !in t && '/' !in t' && t + "/" + e == t' + "/" + e'
    ensures t == t' && e == e'
    decreases |t|
  {
    var s, s' := t + "/" + e, t' + "/" + e';
    assert s[0] == s'[0];
    if t != "" && t' != "" {
      assert s[1..] == t[1..] + "/" + e && s'[1..] == t'[1..] + "/" + e';
      SlashSplits(t[1..], e, t'[1..], e');
    } else {
      assert s[1..] == s'[1..];
    }
  }

  /** The six kinds of names exclude each other. */
  lemma KindsExclude(name: string)
    ensures IsManifest(name) ==>
      name != DESCRIPTOR && !IsObject(name) && !IsPointer(name) && !IsJournal(name) && !IsOutbox(name)
    ensures IsObject(name) ==> name != DESCRIPTOR && !IsPointer(name) && !IsJournal(name) && !IsOutbox(name)
    ensures IsPointer(name) ==> name != DESCRIPTOR && !IsJournal(name) && !IsOutbox(name)
    ensures IsJournal(name) ==> name != DESCRIPTOR && !IsOutbox(name)
    ensures IsOutbox(name) ==> name != DESCRIPTOR
  {
    assert DESCRIPTOR[0] == 'd' && DESCRIPTOR[2] == 's';
    if IsManifest(name) { assert name[0] == "manifests/"[0]; }
    if IsObject(name) { assert name[0] == "objects/"[0] && name[1] == "objects/"[1]; }
    if IsPointer(name) { assert name[0] == "deployments/"[0] && name[2] == "deployments/"[2]; }
    if IsJournal(name) { assert name[0] == "journal/"[0]; }
    if IsOutbox(name) { assert name[0] == "outbox/"[0] && name[1] == "outbox/"[1]; }
  }
}
