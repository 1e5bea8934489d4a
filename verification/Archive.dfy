/**
 Backup archives: which files go in, and which archives extraction accepts.
 An archive is the list of its entries; tar's byte format is not modelled.
 */
module Archive {
  import opened Wrappers
  import opened Hosts

  datatype Component = CurDir | Normal(name: string) | ParentDir | RootDir

  datatype EntryKind = RegularFile | Directory | LinkOrSpecial

  datatype Entry = Entry(path: seq<Component>, kind: EntryKind, size: nat, content: Content)

  /** A path inside the archive, as its plain components. */
  type RelPath = seq<string>

  /** Extracted regular files. */
  type Staging = map<RelPath, Content>

  const MAX_ENTRIES := 32
  const MAX_ENTRY_BYTES := 32 * 1024 * 1024
  const MAX_TOTAL_BYTES := 64 * 1024 * 1024
  const U64_LIMIT := 0x1_0000_0000_0000_0000

  const DEPLOYMENT_TOML: RelPath := ["deployment.toml"]

  /** The single list behind backup, extraction and restore. */
  const MANIFEST: seq<Path> := [UsersJson, PrivateKey, PublicKey, ShortId, TlsCert, TlsKey, ObfsPassword]

  function RelOf(p: Path): RelPath {
    match p
    case UsersJson => ["users", "users.json"]
    case PrivateKey => ["reality", "private.key"]
    case PublicKey => ["reality", "public.key"]
    case ShortId => ["reality", "short_id.txt"]
    case TlsCert => ["hysteria", "cert.pem"]
    case TlsKey => ["hysteria", "key.pem"]
    case ObfsPassword => ["reality", "hysteria_obfs_password.txt"]
    case _ => []
  }

  /** Every path an archive may hold: the manifest, its directories and deployment.toml. */
  function AllowedPaths(): set<RelPath> {
    { DEPLOYMENT_TOML, ["users"], ["reality"], ["hysteria"],
      RelOf(UsersJson), RelOf(PrivateKey), RelOf(PublicKey), RelOf(ShortId), RelOf(TlsCert), RelOf(TlsKey), RelOf(ObfsPassword) }
  }

  predicate IsAllowed(rel: RelPath) {
    || rel == DEPLOYMENT_TOML
    || exists i :: 0 <= i < |MANIFEST| && (rel == RelOf(MANIFEST[i]) || rel == RelOf(MANIFEST[i])[..1])
  }

  lemma IsAllowedMeans(rel: RelPath)
    ensures IsAllowed(rel) <==> rel in AllowedPaths()
  {
    if rel in AllowedPaths() && rel != DEPLOYMENT_TOML {
      var m := MANIFEST;
      assert m[0] == UsersJson && m[1] == PrivateKey && m[2] == PublicKey && m[3] == ShortId;
      assert m[4] == TlsCert && m[5] == TlsKey && m[6] == ObfsPassword;
      assert RelOf(m[0])[..1] == ["users"] && RelOf(m[1])[..1] == ["reality"] && RelOf(m[4])[..1] == ["hysteria"];
    }
    forall i | 0 <= i < |MANIFEST| ensures RelOf(MANIFEST[i]) in AllowedPaths() && RelOf(MANIFEST[i])[..1] in AllowedPaths() {
      if i == 0 {
        assert RelOf(MANIFEST[i])[..1] == ["users"];
      } else if i == 4 || i == 5 {
        assert RelOf(MANIFEST[i])[..1] == ["hysteria"];
      } else {
        assert RelOf(MANIFEST[i])[..1] == ["reality"];
      }
    }
  }

  /** Drops `.` components; any `..` or absolute component is unsafe. */
  function Normalize(path: seq<Component>): Option<RelPath> {
    if path == [] then Some([])
    else match (path[0], Normalize(path[1..]))
         case (CurDir, rest) => rest
         case (Normal(name), Some(rest)) => Some([name] + rest)
         case _ => None
  }

  /** The bytes of the first `n` entries, the root not counted. */
  function TotalSize(entries: seq<Entry>, n: nat): nat
    requires n <= |entries|
  {
    if n == 0 then 0
    else TotalSize(entries, n - 1) + (if Normalize(entries[n - 1].path) == Some([]) then 0 else entries[n - 1].size)
  }

  /** The entry's place in the archive; the root and unsafe paths have none. */
  function Place(e: Entry): Option<RelPath> {
    if Normalize(e.path) == Some([]) then None else Normalize(e.path)
  }

  /** An entry acceptable on its own. `unpack` answers writing it into the staging directory. */
  predicate EntryOk(e: Entry, unpack: bool, allowed: RelPath -> bool) {
    if Normalize(e.path) == Some([]) then e.kind.Directory?
    else
      && Place(e).Some? && allowed(Place(e).value)
      && !e.kind.LinkOrSpecial? && e.size <= MAX_ENTRY_BYTES && unpack
  }

  ghost predicate DistinctPlaces(entries: seq<Entry>) {
    forall i, j :: 0 <= i < j < |entries| && Place(entries[i]).Some? ==> Place(entries[i]) != Place(entries[j])
  }

  /** Which archives extraction accepts, said without the loop. */
  ghost predicate Acceptable(entries: seq<Entry>, unpack: nat -> bool, allowed: RelPath -> bool) {
    && |entries| <= MAX_ENTRIES
    && (forall i :: 0 <= i < |entries| ==> EntryOk(entries[i], unpack(i), allowed))
    && DistinctPlaces(entries)
    && TotalSize(entries, |entries|) <= MAX_TOTAL_BYTES
  }

  /** The places taken by the first `n` entries. */
  function Places(entries: seq<Entry>, n: nat): set<RelPath>
    requires n <= |entries|
  {
    if n == 0 then {}
    else Places(entries, n - 1) + (if Place(entries[n - 1]).Some? then {Place(entries[n - 1]).value} else {})
  }

  lemma {:induction false} PlacesAre(entries: seq<Entry>, n: nat, rel: RelPath)
    requires n <= |entries|
    ensures rel in Places(entries, n) <==> exists j :: 0 <= j < n && Place(entries[j]) == Some(rel)
  {
    if n > 0 {
      PlacesAre(entries, n - 1, rel);
    }
  }

  /** The directories that hold manifest files. */
  const CONTAINERS: set<RelPath> := {["users"], ["reality"], ["hysteria"]}

  /** What an entry puts where a file may be looked for: its contents, or a directory in the file's stead. */
  function Leaves(e: Entry): Option<Content> {
    if Place(e).None? then None
    else match e.kind
         case RegularFile => Some(e.content)
         case Directory => if Place(e).value in CONTAINERS then None else Some(Folder)
         case LinkOrSpecial => None
  }

  /** What the first `n` entries leave at the places where files may be. */
  function FilesOf(entries: seq<Entry>, n: nat): Staging
    requires n <= |entries|
  {
    if n == 0 then map[]
    else
      var e, before := entries[n - 1], FilesOf(entries, n - 1);
      if Leaves(e).Some? then before[Place(e).value := Leaves(e).value] else before
  }

  /** The first `n` entries pass, checked in order. */
  predicate PrefixOk(entries: seq<Entry>, unpack: nat -> bool, allowed: RelPath -> bool, n: nat)
    requires n <= |entries|
  {
    n == 0
    || (&& PrefixOk(entries, unpack, allowed, n - 1)
        && n <= MAX_ENTRIES
        && EntryOk(entries[n - 1], unpack(n - 1), allowed)
        && (Place(entries[n - 1]).Some? ==> Place(entries[n - 1]).value !in Places(entries, n - 1))
        && TotalSize(entries, n) <= MAX_TOTAL_BYTES)
  }

  lemma {:induction false} PrefixShrinks(entries: seq<Entry>, unpack: nat -> bool, allowed: RelPath -> bool, n: nat, m: nat)
    requires n <= m <= |entries| && PrefixOk(entries, unpack, allowed, m)
    ensures PrefixOk(entries, unpack, allowed, n)
    decreases m
  {
    if n < m {
      PrefixShrinks(entries, unpack, allowed, n, m - 1);
    }
  }

  lemma {:induction false} TotalSizeGrows(entries: seq<Entry>, n: nat, m: nat)
    requires n <= m <= |entries|
    ensures TotalSize(entries, n) <= TotalSize(entries, m)
    decreases m
  {
    if n < m {
      TotalSizeGrows(entries, n, m - 1);
    }
  }

  lemma {:induction false} PrefixFacts(entries: seq<Entry>, unpack: nat -> bool, allowed: RelPath -> bool, n: nat)
    requires n <= |entries| && PrefixOk(entries, unpack, allowed, n)
    ensures n <= MAX_ENTRIES && TotalSize(entries, n) <= MAX_TOTAL_BYTES
    ensures forall i :: 0 <= i < n ==> EntryOk(entries[i], unpack(i), allowed)
    ensures forall i, j :: 0 <= i < j < n && Place(entries[i]).Some? ==> Place(entries[i]) != Place(entries[j])
  {
    if n > 0 {
      PrefixFacts(entries, unpack, allowed, n - 1);
      var last := Place(entries[n - 1]);
      if last.Some? {
        PlacesAre(entries, n - 1, last.value);
      }
    }
  }

  lemma {:induction false} AcceptablePrefix(entries: seq<Entry>, unpack: nat -> bool, allowed: RelPath -> bool, n: nat)
    requires n <= |entries| && Acceptable(entries, unpack, allowed)
    ensures PrefixOk(entries, unpack, allowed, n)
  {
    if n > 0 {
      AcceptablePrefix(entries, unpack, allowed, n - 1);
      TotalSizeGrows(entries, n, |entries|);
      var last := Place(entries[n - 1]);
      if last.Some? {
        PlacesAre(entries, n - 1, last.value);
      }
    }
  }

  /** Checking entry by entry accepts exactly the acceptable archives. */
  lemma PrefixIsAcceptable(entries: seq<Entry>, unpack: nat -> bool, allowed: RelPath -> bool)
    ensures PrefixOk(entries, unpack, allowed, |entries|) <==> Acceptable(entries, unpack, allowed)
  {
    if PrefixOk(entries, unpack, allowed, |entries|) {
      PrefixFacts(entries, unpack, allowed, |entries|);
    }
    if Acceptable(entries, unpack, allowed) {
      AcceptablePrefix(entries, unpack, allowed, |entries|);
    }
  }

  /**
   `extract_validated_backup`: one pass, every header checked before its entry
   is written. Accepts exactly the acceptable archives, and stages their files.
   The running total cannot overflow 64 bits, whatever sizes the headers claim.
   */
  method ExtractValidated(entries: seq<Entry>, unpack: nat -> bool, allowed: RelPath -> bool) returns (r: Option<Staging>)
    ensures r.Some? <==> Acceptable(entries, unpack, allowed)
    ensures r.Some? ==> r.value == FilesOf(entries, |entries|)
  {
    PrefixIsAcceptable(entries, unpack, allowed);
    var seen: set<RelPath> := {};
    var total := 0;
    var staged: Staging := map[];
    for i := 0 to |entries|
      invariant PrefixOk(entries, unpack, allowed, i)
      invariant seen == Places(entries, i)
      invariant total == TotalSize(entries, i) <= MAX_TOTAL_BYTES
      invariant staged == FilesOf(entries, i)
    {
      if PrefixOk(entries, unpack, allowed, |entries|) {
        PrefixShrinks(entries, unpack, allowed, i + 1, |entries|);
      }
      var e := entries[i];
      if i + 1 > MAX_ENTRIES {
        return None;
      }
      var path := Normalize(e.path);
      if path.None? {
        return None;
      }
      var rel := path.value;
      if rel == [] {
        if !e.kind.Directory? {
          return None;
        }
        continue;
      }
      if rel in seen {
        return None;
      }
      seen := seen + {rel};
      if !allowed(rel) || e.kind.LinkOrSpecial? || e.size > MAX_ENTRY_BYTES {
        return None;
      }
      assert total + e.size < U64_LIMIT;
      total := total + e.size;
      if total > MAX_TOTAL_BYTES || !unpack(i) {
        return None;
      }
      if e.kind.RegularFile? {
        staged := staged[rel := e.content];
      } else if rel !in CONTAINERS {
        staged := staged[rel := Folder];
      }
    }
    return Some(staged);
  }

  // ----------------------------------------------------------------- backup

  predicate InManifest(p: Path) {
    p == UsersJson || p == PrivateKey || p == PublicKey || p == ShortId || p == TlsCert || p == TlsKey || p == ObfsPassword
  }

  lemma ManifestIs(p: Path)
    ensures p in MANIFEST <==> InManifest(p)
  {
    var m := MANIFEST;
    assert m[0] == UsersJson && m[1] == PrivateKey && m[2] == PublicKey && m[3] == ShortId;
    assert m[4] == TlsCert && m[5] == TlsKey && m[6] == ObfsPassword;
  }

  /** No two manifest files share a place, and none is deployment.toml. */
  lemma RelInjective(p: Path, q: Path)
    requires InManifest(p) && InManifest(q)
    ensures RelOf(p) == RelOf(q) ==> p == q
    ensures RelOf(p) != DEPLOYMENT_TOML && IsAllowed(RelOf(p))
  {
    assert |RelOf(p)| == 2 && |RelOf(q)| == 2;
    if RelOf(p) == RelOf(q) {
      assert |RelOf(p)[1]| == |RelOf(q)[1]| && RelOf(p)[1][0] == RelOf(q)[1][0];
    }
    ManifestIs(p);
    var i :| 0 <= i < |MANIFEST| && MANIFEST[i] == p;
  }

  /** What a backup of `files` stages: each manifest file that exists, and possibly deployment.toml. */
  ghost predicate StagedFrom(files: Files, staged: Staging) {
    && (forall p :: InManifest(p) ==> (RelOf(p) in staged <==> p in files))
    && (forall p :: InManifest(p) && p in files && RelOf(p) in staged ==> staged[RelOf(p)] == files[p])
    && (forall rel :: rel in staged ==> rel == DEPLOYMENT_TOML || exists p :: InManifest(p) && rel == RelOf(p))
  }

  /** Copies each existing file of `paths` to its place; places are distinct and new. */
  method CopyExisting(files: Files, base: Staging, paths: seq<Path>, place: Path -> RelPath) returns (staged: Staging)
    requires forall i, j :: 0 <= i < j < |paths| ==> place(paths[i]) != place(paths[j])
    requires forall i :: 0 <= i < |paths| ==> place(paths[i]) !in base
    ensures forall i :: 0 <= i < |paths| ==> (place(paths[i]) in staged <==> paths[i] in files)
    ensures forall i :: 0 <= i < |paths| && paths[i] in files ==> staged[place(paths[i])] == files[paths[i]]
    ensures forall rel :: rel in staged ==> rel in base || exists i :: 0 <= i < |paths| && rel == place(paths[i])
    ensures forall rel :: rel in base ==> rel in staged && staged[rel] == base[rel]
  {
    staged := base;
    for n := 0 to |paths|
      invariant forall i :: 0 <= i < n ==> (place(paths[i]) in staged <==> paths[i] in files)
      invariant forall i :: 0 <= i < n && paths[i] in files ==> staged[place(paths[i])] == files[paths[i]]
      invariant forall i :: n <= i < |paths| ==> place(paths[i]) !in staged
      invariant forall rel :: rel in staged ==> rel in base || exists i :: 0 <= i < n && rel == place(paths[i])
      invariant forall rel :: rel in base ==> rel in staged && staged[rel] == base[rel]
    {
      if paths[n] in files {
        staged := staged[place(paths[n]) := files[paths[n]]];
      }
    }
  }

  /** `stage_backup_contents`: missing pieces are skipped, not an error. */
  method StageBackupContents(files: Files, toml: Option<Content>) returns (staged: Staging)
    ensures StagedFrom(files, staged)
  {
    var base: Staging := if toml.Some? then map[DEPLOYMENT_TOML := toml.value] else map[];
    forall i | 0 <= i < |MANIFEST| ensures InManifest(MANIFEST[i]) && RelOf(MANIFEST[i]) !in base {
      ManifestIs(MANIFEST[i]);
      RelInjective(MANIFEST[i], MANIFEST[i]);
    }
    forall i, j | 0 <= i < j < |MANIFEST| ensures RelOf(MANIFEST[i]) != RelOf(MANIFEST[j]) {
      RelInjective(MANIFEST[i], MANIFEST[j]);
      assert MANIFEST[i] != MANIFEST[j];
    }
    staged := CopyExisting(files, base, MANIFEST, RelOf);
    forall p | InManifest(p) ensures exists i :: 0 <= i < |MANIFEST| && MANIFEST[i] == p {
      ManifestIs(p);
    }
  }

  /**
   The tar of a staging directory: its root at most once, directories of the
   manifest, and each staged file exactly once with its contents; any order.
   */
  ghost predicate TarOf(entries: seq<Entry>, staged: Staging) {
    && DistinctPlaces(entries)
    && (forall i, j :: 0 <= i < j < |entries| ==> Place(entries[i]).Some? || Place(entries[j]).Some?)
    && (forall i :: 0 <= i < |entries| ==> TarEntry(entries[i], staged))
    && (forall rel :: rel in staged ==> exists i :: 0 <= i < |entries| && Place(entries[i]) == Some(rel) && entries[i].kind.RegularFile?)
  }

  predicate TarEntry(e: Entry, staged: Staging) {
    if Place(e).None? then Normalize(e.path) == Some([]) && e.kind.Directory?
    else match e.kind
         case Directory => Place(e).value in CONTAINERS
         case RegularFile => Place(e).value in staged && staged[Place(e).value] == e.content
         case LinkOrSpecial => false
  }

  predicate WithinLimits(entries: seq<Entry>) {
    (forall i :: 0 <= i < |entries| ==> entries[i].size <= MAX_ENTRY_BYTES) && TotalSize(entries, |entries|) <= MAX_TOTAL_BYTES
  }

  function RootCount(entries: seq<Entry>, n: nat): nat
    requires n <= |entries|
  {
    if n == 0 then 0 else RootCount(entries, n - 1) + (if Place(entries[n - 1]).None? then 1 else 0)
  }

  lemma {:induction false} CountPlaces(entries: seq<Entry>, n: nat)
    requires n <= |entries| && DistinctPlaces(entries)
    ensures n == |Places(entries, n)| + RootCount(entries, n)
  {
    if n > 0 {
      CountPlaces(entries, n - 1);
      if Place(entries[n - 1]).Some? {
        PlacesAre(entries, n - 1, Place(entries[n - 1]).value);
      }
    }
  }

  lemma {:induction false} OneRoot(entries: seq<Entry>, n: nat)
    requires n <= |entries|
    requires forall i, j :: 0 <= i < j < |entries| ==> Place(entries[i]).Some? || Place(entries[j]).Some?
    ensures RootCount(entries, n) <= 1
    ensures RootCount(entries, n) == 0 || exists i :: 0 <= i < n && Place(entries[i]).None?
  {
    if n > 0 {
      OneRoot(entries, n - 1);
    }
  }

  lemma {:induction false} FilesOfTar(entries: seq<Entry>, staged: Staging, n: nat)
    requires n <= |entries| && TarOf(entries, staged)
    ensures forall rel :: rel in FilesOf(entries, n) ==> rel in staged && FilesOf(entries, n)[rel] == staged[rel]
    ensures forall i :: 0 <= i < n && Place(entries[i]).Some? && entries[i].kind.RegularFile? ==>
              Place(entries[i]).value in FilesOf(entries, n)
  {
    if n > 0 {
      FilesOfTar(entries, staged, n - 1);
      assert TarEntry(entries[n - 1], staged);
    }
  }

  lemma {:induction false} TarPlaceAllowed(e: Entry, staged: Staging, allowed: RelPath -> bool)
    requires TarEntry(e, staged) && Place(e).Some?
    requires forall rel :: rel in staged ==> allowed(rel)
    requires allowed(["users"]) && allowed(["reality"]) && allowed(["hysteria"])
    ensures allowed(Place(e).value)
  {}

  /**
   The archive a backup writes passes extraction, which gives back exactly what
   was staged. `allowed` is any allowlist with the reach of `IsAllowed`.
   */
  lemma BackupArchiveAccepted(entries: seq<Entry>, staged: Staging, unpack: nat -> bool, allowed: RelPath -> bool)
    requires TarOf(entries, staged) && WithinLimits(entries)
    requires forall rel :: rel in staged ==> allowed(rel)
    requires allowed(["users"]) && allowed(["reality"]) && allowed(["hysteria"])
    requires forall rel :: allowed(rel) ==> rel in AllowedPaths()
    requires forall i :: 0 <= i < |entries| ==> unpack(i)
    ensures Acceptable(entries, unpack, allowed)
    ensures FilesOf(entries, |entries|) == staged
  {
    TarAcceptable(entries, staged, unpack, allowed);
    FilesOfWholeTar(entries, staged);
  }

  lemma TarAcceptable(entries: seq<Entry>, staged: Staging, unpack: nat -> bool, allowed: RelPath -> bool)
    requires TarOf(entries, staged) && WithinLimits(entries)
    requires forall rel :: rel in staged ==> allowed(rel)
    requires allowed(["users"]) && allowed(["reality"]) && allowed(["hysteria"])
    requires forall rel :: allowed(rel) ==> rel in AllowedPaths()
    requires forall i :: 0 <= i < |entries| ==> unpack(i)
    ensures Acceptable(entries, unpack, allowed)
  {
    TarEntriesOk(entries, staged, unpack, allowed);
    FewEntries(entries, staged, allowed);
  }

  lemma TarEntriesOk(entries: seq<Entry>, staged: Staging, unpack: nat -> bool, allowed: RelPath -> bool)
    requires TarOf(entries, staged) && WithinLimits(entries)
    requires forall rel :: rel in staged ==> allowed(rel)
    requires allowed(["users"]) && allowed(["reality"]) && allowed(["hysteria"])
    requires forall i :: 0 <= i < |entries| ==> unpack(i)
    ensures forall i :: 0 <= i < |entries| ==> EntryOk(entries[i], unpack(i), allowed)
  {
    forall i | 0 <= i < |entries| ensures EntryOk(entries[i], unpack(i), allowed) {
      TarEntryOk(entries[i], staged, allowed);
    }
  }

  lemma TarEntryOk(e: Entry, staged: Staging, allowed: RelPath -> bool)
    requires TarEntry(e, staged) && e.size <= MAX_ENTRY_BYTES
    requires forall rel :: rel in staged ==> allowed(rel)
    requires allowed(["users"]) && allowed(["reality"]) && allowed(["hysteria"])
    ensures EntryOk(e, true, allowed)
  {
    if Place(e).Some? {
      TarPlaceAllowed(e, staged, allowed);
    }
  }

  lemma FilesOfWholeTar(entries: seq<Entry>, staged: Staging)
    requires TarOf(entries, staged)
    ensures FilesOf(entries, |entries|) == staged
  {
    FilesOfTar(entries, staged, |entries|);
    var out := FilesOf(entries, |entries|);
    forall rel | rel in staged ensures rel in out {
      var i :| 0 <= i < |entries| && Place(entries[i]) == Some(rel) && entries[i].kind.RegularFile?;
    }
  }

  lemma FewEntries(entries: seq<Entry>, staged: Staging, allowed: RelPath -> bool)
    requires TarOf(entries, staged)
    requires forall rel :: rel in staged ==> allowed(rel)
    requires allowed(["users"]) && allowed(["reality"]) && allowed(["hysteria"])
    requires forall rel :: allowed(rel) ==> rel in AllowedPaths()
    ensures |entries| <= MAX_ENTRIES
  {
    CountPlaces(entries, |entries|);
    OneRoot(entries, |entries|);
    forall rel | rel in Places(entries, |entries|) ensures rel in AllowedPaths() {
      PlacesAre(entries, |entries|, rel);
      var i :| 0 <= i < |entries| && Place(entries[i]) == Some(rel);
      TarPlaceAllowed(entries[i], staged, allowed);
    }
    SubsetSize(Places(entries, |entries|), AllowedPaths());
    AllowedCount();
  }

  lemma AllowedCount()
    ensures |AllowedPaths()| <= 11
  {}
}
