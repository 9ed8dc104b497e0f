/** Indexed authentication: original signed repository indexes, their trust keys and the packages bound to
    them. The parsed document is given as typed records; an absent text field is the empty string. */
module IndexedAuth {
  import opened AssetNames
  import opened Wrappers

  datatype Role = Foxhole | Upstream | Unknown

  /** `provenance` is the outcome of the URL rules for the role of this index. */
  datatype Index = Index(file: string, sha256: string, bytes: Option<int>, role: Role, provenance: bool,
                         trust: seq<string>)

  datatype TrustKey = TrustKey(file: string, sha256: string, bytes: Option<int>)

  datatype Binding = Binding(name: string, version: string, architecture: string, file: string, indexFile: string,
                             packageIdentity: string)

  datatype Package = Package(file: string, name: string, version: string, architecture: string)

  /** `signed` stands for the signature model and the factory digest. */
  datatype Document = Document(signed: bool, indexes: seq<Index>, bindings: seq<Binding>, trustKeys: seq<TrustKey>,
                               files: map<string, string>, indexBytes: Option<int>, keyBytes: Option<int>)

  const CANONICAL_SHA := "fa220a28fd8662fc5f617f46594bafe2415b4f605136570dc3c446caeb7d1ef1"
  const CANONICAL_KEY := "foxhole-openwrt-apk.pem"
  const MAX_INDEX := 8388608
  const MAX_KEY := 16384

  /** A number within the exact range of a double, and within the given bounds. */
  predicate Count(v: Option<int>, low: int, high: int) {
    v.Some? && 0 <= v.value <= 0x1F_FFFF_FFFF_FFFF && low <= v.value <= high
  }

  // ---------------------------------------------------------------- indexes

  predicate IndexOk(x: Index) {
    && IsName(x.file) && IsSha(x.sha256) && Count(x.bytes, 1, MAX_INDEX) && x.role != Unknown && x.provenance
    && 1 <= |x.trust| <= 16 && (forall i, j :: 0 <= i < j < |x.trust| ==> x.trust[i] != x.trust[j])
    && (forall i :: 0 <= i < |x.trust| ==> IsName(x.trust[i]))
    && (x.role == Foxhole ==> x.trust == [CANONICAL_KEY])
  }

  ghost predicate IndexesAdmitted(indexes: seq<Index>) {
    && (forall i :: 0 <= i < |indexes| ==> IndexOk(indexes[i]))
    && (forall i, j :: 0 <= i < j < |indexes| ==> indexes[i].file != indexes[j].file)
    && forall i, j :: 0 <= i < j < |indexes| ==> RolesAgree(indexes[i], indexes[j])
  }

  ghost predicate RolesAgree(x: Index, y: Index) {
    forall key :: key in x.trust && key in y.trust ==> x.role == y.role
  }

  ghost function IndexFiles(indexes: seq<Index>): set<string> {
    set i | 0 <= i < |indexes| :: indexes[i].file
  }

  ghost function Keys(indexes: seq<Index>): set<string> {
    set i, key | 0 <= i < |indexes| && key in indexes[i].trust :: key
  }

  /** `byFile` and `roles` are the tables of the first `n` indexes. */
  ghost predicate IndexTables(indexes: seq<Index>, byFile: map<string, Index>, roles: map<string, Role>) {
    && byFile.Keys == IndexFiles(indexes) && roles.Keys == Keys(indexes)
    && (forall i :: 0 <= i < |indexes| ==> byFile[indexes[i].file] == indexes[i])
    && forall i, key :: 0 <= i < |indexes| && key in indexes[i].trust ==> roles[key] == indexes[i].role
  }

  method AddTrust(roles: map<string, Role>, trust: seq<string>, role: Role) returns (ok: bool, r: map<string, Role>)
    ensures ok <==> forall key :: key in trust && key in roles ==> roles[key] == role
    ensures ok ==> r.Keys == roles.Keys + set key | key in trust
    ensures ok ==> forall key :: key in r ==> r[key] == if key in trust then role else roles[key]
  {
    r := roles;
    for n := 0 to |trust|
      invariant r.Keys == roles.Keys + set key | key in trust[..n]
      invariant forall key :: key in r ==> r[key] == if key in trust[..n] then role else roles[key]
      invariant forall key :: key in trust[..n] && key in roles ==> roles[key] == role
    {
      if trust[n] in r && r[trust[n]] != role {
        assert trust[n] in trust;
        return false, r;
      }
      r := r[trust[n] := role];
      assert trust[..n + 1] == trust[..n] + [trust[n]];
    }
    assert trust[..|trust|] == trust;
    ok := true;
  }

  method ScanIndexes(indexes: seq<Index>) returns (ok: bool, byFile: map<string, Index>, roles: map<string, Role>)
    ensures ok <==> IndexesAdmitted(indexes)
    ensures ok ==> IndexTables(indexes, byFile, roles)
  {
    byFile, roles := map[], map[];
    assert IndexesAdmitted(indexes[..0]) && IndexTables(indexes[..0], byFile, roles);
    hide IndexesAdmitted, IndexTables, IndexOk;
    for n := 0 to |indexes|
      invariant IndexesAdmitted(indexes[..n]) && IndexTables(indexes[..n], byFile, roles)
    {
      var item := indexes[n];
      NextIndex(indexes, n, byFile, roles);
      if !IndexOk(item) || item.file in byFile { return false, byFile, roles; }
      var agrees, more := AddTrust(roles, item.trust, item.role);
      if !agrees { return false, byFile, roles; }
      IndexAdded(indexes[..n], item, byFile, roles, more);
      byFile, roles := byFile[item.file := item], more;
      assert indexes[..n + 1] == indexes[..n] + [item];
    }
    assert indexes[..|indexes|] == indexes;
    ok := true;
  }

  lemma NextIndex(indexes: seq<Index>, n: nat, byFile: map<string, Index>, roles: map<string, Role>)
    requires n < |indexes| && IndexTables(indexes[..n], byFile, roles)
    ensures IndexesAdmitted(indexes) ==>
              && IndexOk(indexes[n]) && indexes[n].file !in byFile
              && forall key :: key in indexes[n].trust && key in roles ==> roles[key] == indexes[n].role
  {
    if IndexesAdmitted(indexes) {
      forall key | key in indexes[n].trust && key in roles ensures roles[key] == indexes[n].role {
        var i :| 0 <= i < n && key in indexes[..n][i].trust;
        assert RolesAgree(indexes[i], indexes[n]);
      }
    }
  }

  lemma FilesAndKeysSnoc(front: seq<Index>, item: Index)
    ensures IndexFiles(front + [item]) == IndexFiles(front) + {item.file}
    ensures Keys(front + [item]) == Keys(front) + set key | key in item.trust
  {
    var all := front + [item];
    assert all[|front|] == item;
    forall i | 0 <= i < |front| ensures all[i] == front[i] && all[i].file in IndexFiles(all) {
    }
    forall i, key | 0 <= i < |front| && key in front[i].trust ensures key in Keys(all) {
      assert key in all[i].trust;
    }
  }

  lemma IndexAdded(front: seq<Index>, item: Index, byFile: map<string, Index>, roles: map<string, Role>,
                   more: map<string, Role>)
    requires IndexesAdmitted(front) && IndexTables(front, byFile, roles)
    requires IndexOk(item) && item.file !in byFile
    requires forall key :: key in item.trust && key in roles ==> roles[key] == item.role
    requires more.Keys == roles.Keys + set key | key in item.trust
    requires forall key :: key in more ==> more[key] == if key in item.trust then item.role else roles[key]
    ensures IndexesAdmitted(front + [item]) && IndexTables(front + [item], byFile[item.file := item], more)
  {
    hide IndexOk, RolesAgree;
    NewIndexFits(front, item, byFile, roles);
    FilesAndKeysSnoc(front, item);
  }

  lemma NewIndexFits(front: seq<Index>, item: Index, byFile: map<string, Index>, roles: map<string, Role>)
    requires IndexesAdmitted(front) && IndexTables(front, byFile, roles)
    requires IndexOk(item) && item.file !in byFile
    requires forall key :: key in item.trust && key in roles ==> roles[key] == item.role
    ensures IndexesAdmitted(front + [item])
  {
    hide IndexOk;
    var all := front + [item];
    forall i, j | 0 <= i < j < |all| ensures RolesAgree(all[i], all[j]) && all[i].file != all[j].file {
      if j < |front| { assert RolesAgree(front[i], front[j]); }
    }
  }

  // ---------------------------------------------------------------- trust keys

  ghost predicate ServedByFoxhole(indexes: seq<Index>, key: string) {
    exists i :: 0 <= i < |indexes| && indexes[i].role == Foxhole && key in indexes[i].trust
  }

  predicate KeyRecordOk(k: TrustKey, files: map<string, string>) {
    && IsName(k.file) && IsSha(k.sha256) && Count(k.bytes, 1, MAX_KEY)
    && k.file in files && files[k.file] == k.sha256
  }

  ghost predicate KeyOk(k: TrustKey, files: map<string, string>, indexes: seq<Index>) {
    KeyRecordOk(k, files) && (ServedByFoxhole(indexes, k.file) <==> k.sha256 == CANONICAL_SHA)
  }

  ghost predicate KeysAdmitted(trust: seq<TrustKey>, files: map<string, string>, indexes: seq<Index>) {
    && (forall i :: 0 <= i < |trust| ==> KeyOk(trust[i], files, indexes))
    && forall i, j :: 0 <= i < j < |trust| ==> trust[i].file != trust[j].file && trust[i].sha256 != trust[j].sha256
  }

  ghost function KeyFiles(trust: seq<TrustKey>): set<string> {
    set i | 0 <= i < |trust| :: trust[i].file
  }

  lemma RoleTable(indexes: seq<Index>, byFile: map<string, Index>, roles: map<string, Role>, key: string)
    requires IndexTables(indexes, byFile, roles)
    ensures key in roles && roles[key] == Foxhole <==> ServedByFoxhole(indexes, key)
  {
    if key in roles {
      var i :| 0 <= i < |indexes| && key in indexes[i].trust;
    }
  }

  method ScanTrustKeys(trust: seq<TrustKey>, files: map<string, string>, roles: map<string, Role>,
                       ghost indexes: seq<Index>, ghost byFile: map<string, Index>)
    returns (ok: bool, names: set<string>)
    requires IndexTables(indexes, byFile, roles)
    ensures ok <==> KeysAdmitted(trust, files, indexes)
    ensures ok ==> names == KeyFiles(trust)
  {
    names := {};
    var hashes: set<string> := {};
    for n := 0 to |trust|
      invariant names == set i | 0 <= i < n :: trust[i].file
      invariant hashes == set i | 0 <= i < n :: trust[i].sha256
      invariant forall i :: 0 <= i < n ==> KeyOk(trust[i], files, indexes)
      invariant forall i, j :: 0 <= i < j < n ==> trust[i].file != trust[j].file && trust[i].sha256 != trust[j].sha256
    {
      var item := trust[n];
      RoleTable(indexes, byFile, roles, item.file);
      if !KeyRecordOk(item, files) || item.file in names || item.sha256 in hashes { return false, names; }
      if (item.file in roles && roles[item.file] == Foxhole) != (item.sha256 == CANONICAL_SHA) {
        return false, names;
      }
      names, hashes := names + {item.file}, hashes + {item.sha256};
    }
    ok := true;
  }

  // ---------------------------------------------------------------- packages and bindings

  ghost function PackageFiles(packages: seq<Package>): set<string> {
    set i | 0 <= i < |packages| :: packages[i].file
  }

  ghost predicate FilesDiffer(packages: seq<Package>) {
    forall i, j :: 0 <= i < j < |packages| ==> packages[i].file != packages[j].file
  }

  /** The table by file name; a later package replaces an earlier one of the same name. */
  function Records(packages: seq<Package>): (r: map<string, Package>) {
    if packages == [] then map[]
    else
      var item := packages[|packages| - 1];
      Records(packages[..|packages| - 1])[item.file := item]
  }

  lemma {:induction false} RecordsAreTheTable(packages: seq<Package>)
    ensures Records(packages).Keys == PackageFiles(packages) && |Records(packages)| <= |packages|
    ensures |Records(packages)| == |packages| <==> FilesDiffer(packages)
    ensures FilesDiffer(packages) ==> RecordTable(packages, Records(packages))
  {
    if packages != [] {
      var front, item := packages[..|packages| - 1], packages[|packages| - 1];
      RecordsAreTheTable(front);
      assert packages == front + [item];
      RecordAdded(front, item, Records(front));
      CountAdded(Records(front), item.file, item);
    }
  }

  lemma CountAdded(m: map<string, Package>, k: string, v: Package)
    ensures |m[k := v]| == if k in m then |m| else |m| + 1
  {
    var n := m[k := v];
    assert n.Keys == m.Keys + {k} && |n| == |n.Keys| && |m| == |m.Keys|;
  }

  ghost predicate RecordTable(packages: seq<Package>, records: map<string, Package>) {
    && records.Keys == PackageFiles(packages)
    && forall i :: 0 <= i < |packages| ==> records[packages[i].file] == packages[i]
  }

  lemma RecordAdded(front: seq<Package>, item: Package, records: map<string, Package>)
    requires records.Keys == PackageFiles(front)
    ensures records[item.file := item].Keys == PackageFiles(front + [item]) == PackageFiles(front) + {item.file}
    ensures FilesDiffer(front + [item]) <==> FilesDiffer(front) && item.file !in records
    ensures FilesDiffer(front + [item]) && RecordTable(front, records) ==>
              RecordTable(front + [item], records[item.file := item])
  {
    var all := front + [item];
    assert all[|front|] == item && forall i :: 0 <= i < |front| ==> all[i] == front[i];
    assert PackageFiles(all) == PackageFiles(front) + {item.file};
    if FilesDiffer(all) {
      assert forall i, j :: 0 <= i < j < |front| ==> all[i].file != all[j].file;
    }
  }

  /** A binding names its package by file and identity, and an index whose role is the owner's. */
  ghost predicate Binds(b: Binding, p: Package, x: Index, owned: set<string>) {
    && b.file == p.file && b.indexFile == x.file
    && b.name == p.name && b.version == p.version && b.architecture == p.architecture
    && (x.role == Foxhole <==> p.name in owned)
  }

  predicate IdentityOk(b: Binding) {
    IsPackage(b.name) && IsVersion(b.version) && IsName(b.architecture) && IsSha(b.packageIdentity)
  }

  ghost predicate Bound(b: Binding, packages: seq<Package>, indexes: seq<Index>, owned: set<string>) {
    exists i, j :: 0 <= i < |packages| && 0 <= j < |indexes| && Binds(b, packages[i], indexes[j], owned)
  }

  ghost predicate BindingsAdmitted(bindings: seq<Binding>, packages: seq<Package>, indexes: seq<Index>,
                                   owned: set<string>) {
    && (forall k :: 0 <= k < |bindings| ==> IdentityOk(bindings[k]) && Bound(bindings[k], packages, indexes, owned))
    && forall k, m :: 0 <= k < m < |bindings| ==> bindings[k].file != bindings[m].file
  }

  ghost function BindingFiles(bindings: seq<Binding>): set<string> {
    set k | 0 <= k < |bindings| :: bindings[k].file
  }

  predicate Matches(b: Binding, records: map<string, Package>, byFile: map<string, Index>, owned: set<string>) {
    && b.file in records && b.indexFile in byFile
    && var p := records[b.file];
       && b.name == p.name && b.version == p.version && b.architecture == p.architecture
       && (byFile[b.indexFile].role == Foxhole <==> p.name in owned)
  }

  lemma MatchesIsBound(b: Binding, packages: seq<Package>, records: map<string, Package>, indexes: seq<Index>,
                       byFile: map<string, Index>, roles: map<string, Role>, owned: set<string>)
    requires RecordTable(packages, records) && IndexTables(indexes, byFile, roles)
    ensures Matches(b, records, byFile, owned) <==> Bound(b, packages, indexes, owned)
  {
    if Matches(b, records, byFile, owned) {
      var i :| 0 <= i < |packages| && packages[i].file == b.file;
      var j :| 0 <= j < |indexes| && indexes[j].file == b.indexFile;
      assert Binds(b, packages[i], indexes[j], owned);
    }
    if Bound(b, packages, indexes, owned) {
      var i, j :| 0 <= i < |packages| && 0 <= j < |indexes| && Binds(b, packages[i], indexes[j], owned);
      assert records[packages[i].file] == packages[i] && byFile[indexes[j].file] == indexes[j];
    }
  }

  method ScanBindings(bindings: seq<Binding>, records: map<string, Package>, byFile: map<string, Index>,
                      owned: set<string>, ghost packages: seq<Package>, ghost indexes: seq<Index>,
                      ghost roles: map<string, Role>)
    returns (ok: bool, seen: set<string>)
    requires RecordTable(packages, records) && IndexTables(indexes, byFile, roles)
    ensures ok <==> BindingsAdmitted(bindings, packages, indexes, owned)
    ensures ok ==> seen == BindingFiles(bindings)
  {
    seen := {};
    for n := 0 to |bindings|
      invariant seen == set k | 0 <= k < n :: bindings[k].file
      invariant forall k :: 0 <= k < n ==> IdentityOk(bindings[k]) && Bound(bindings[k], packages, indexes, owned)
      invariant forall k, m :: 0 <= k < m < n ==> bindings[k].file != bindings[m].file
    {
      var item := bindings[n];
      MatchesIsBound(item, packages, records, indexes, byFile, roles, owned);
      if !IdentityOk(item) || item.file in seen || !Matches(item, records, byFile, owned) { return false, seen; }
      seen := seen + {item.file};
    }
    ok := true;
  }

  // ---------------------------------------------------------------- the whole schema

  function Bytes(v: Option<int>): int {
    if v.Some? then v.value else 0
  }

  function IndexTotal(indexes: seq<Index>): int {
    if indexes == [] then 0 else Bytes(indexes[0].bytes) + IndexTotal(indexes[1..])
  }

  function KeyTotal(trust: seq<TrustKey>): int {
    if trust == [] then 0 else Bytes(trust[0].bytes) + KeyTotal(trust[1..])
  }

  predicate Limits(d: Document, packages: seq<Package>, owned: set<string>) {
    && owned != {} && |owned| <= 26 && (forall name :: name in owned ==> IsPackage(name)) && d.signed
    && 1 <= |d.indexes| <= 16 && |d.bindings| == |packages| && 1 <= |packages| <= 256
  }

  /** The trust keys are exactly those the indexes name, and no asset is both. */
  ghost predicate Trusted(d: Document) {
    && IndexesAdmitted(d.indexes) && |Keys(d.indexes)| <= 32 && Keys(d.indexes) !! IndexFiles(d.indexes)
    && |d.trustKeys| == |Keys(d.indexes)| && KeysAdmitted(d.trustKeys, d.files, d.indexes)
    && KeyFiles(d.trustKeys) == Keys(d.indexes)
  }

  ghost predicate Complete(bindings: seq<Binding>, packages: seq<Package>, indexes: seq<Index>, owned: set<string>) {
    && FilesDiffer(packages) && BindingsAdmitted(bindings, packages, indexes, owned)
    && BindingFiles(bindings) == PackageFiles(packages)
  }

  ghost predicate ManifestExact(d: Document, packages: seq<Package>) {
    && PackageFiles(packages) !! IndexFiles(d.indexes) + Keys(d.indexes)
    && d.files.Keys == PackageFiles(packages) + IndexFiles(d.indexes) + Keys(d.indexes)
  }

  predicate TotalsAgree(d: Document) {
    && Count(d.indexBytes, 0, 0x1F_FFFF_FFFF_FFFF) && d.indexBytes.value == IndexTotal(d.indexes)
    && Count(d.keyBytes, 0, 0x1F_FFFF_FFFF_FFFF) && d.keyBytes.value == KeyTotal(d.trustKeys)
  }

  ghost predicate Admitted(d: Document, packages: seq<Package>, owned: set<string>) {
    && Limits(d, packages, owned) && Trusted(d) && Complete(d.bindings, packages, d.indexes, owned)
    && ManifestExact(d, packages) && TotalsAgree(d)
  }

  method CheckTrust(d: Document) returns (r: Result<()>, byFile: map<string, Index>, roles: map<string, Role>)
    ensures r.Ok? <==> Trusted(d)
    ensures r.Ok? ==> IndexTables(d.indexes, byFile, roles)
  {
    var indexed;
    indexed, byFile, roles := ScanIndexes(d.indexes);
    if !indexed { return Refused("Invalid original repository index"), byFile, roles; }
    if |roles.Keys| > 32 || !(roles.Keys !! byFile.Keys) {
      return Refused("Ambiguous index/key assets"), byFile, roles;
    }
    if |d.trustKeys| != |roles.Keys| {
      return Refused("Complete public trust-key byte authority required"), byFile, roles;
    }
    var trusted, names := ScanTrustKeys(d.trustKeys, d.files, roles, d.indexes, byFile);
    if !trusted { return Refused("Invalid trust-key byte record"), byFile, roles; }
    if names != roles.Keys { return Refused("Unused or missing public trust-key asset"), byFile, roles; }
    r := Ok(());
  }

  method Schema(d: Document, packages: seq<Package>, owned: set<string>) returns (r: Result<set<string>>)
    ensures r.Ok? <==> Admitted(d, packages, owned)
    ensures r.Ok? ==> r.value == Keys(d.indexes)
  {
    hide Trusted, BindingsAdmitted, FilesDiffer, Limits, TotalsAgree;
    hide IndexFiles, Keys, PackageFiles, BindingFiles, Records;
    if !Limits(d, packages, owned) { return Refused("Bounded complete indexed authentication required"); }
    var trust, byFile, roles := CheckTrust(d);
    if trust.Refused? { return Refused(trust.reason); }
    var files, keys := byFile.Keys, roles.Keys;
    var records := Records(packages);
    RecordsAreTheTable(packages);
    if |records| != |packages| || !(records.Keys !! files + keys) {
      return Refused("Ambiguous indexed package assets");
    }
    var bound, seen := ScanBindings(d.bindings, records, byFile, owned, packages, d.indexes, roles);
    if !bound { return Refused("Package is not bound to its role-specific signed index"); }
    if seen != records.Keys { return Refused("Incomplete indexed package bindings"); }
    if d.files.Keys != records.Keys + files + keys { return Refused("Exact package/index/key manifest required"); }
    if !TotalsAgree(d) { return Refused("Byte total differs"); }
    return Ok(keys);
  }

  // ---------------------------------------------------------------- the rules in numbers

  ghost predicate SoundIndex(x: Index) {
    && IsName(x.file) && IsSha(x.sha256) && x.bytes.Some? && 1 <= x.bytes.value <= 8388608
    && (x.role == Foxhole || x.role == Upstream) && x.provenance && 1 <= |x.trust| <= 16
    && (forall i, j :: 0 <= i < |x.trust| && 0 <= j < |x.trust| && x.trust[i] == x.trust[j] ==> i == j)
    && (forall key :: key in x.trust ==> IsName(key))
    && (x.role == Foxhole ==> x.trust == ["foxhole-openwrt-apk.pem"])
  }

  /** The one digest of the project's own key goes with the keys that a FoxHole index trusts, and with no other. */
  ghost predicate SoundKey(k: TrustKey, files: map<string, string>, indexes: seq<Index>) {
    && IsName(k.file) && IsSha(k.sha256) && k.bytes.Some? && 1 <= k.bytes.value <= 16384
    && k.file in files && files[k.file] == k.sha256
    && (k.sha256 == "fa220a28fd8662fc5f617f46594bafe2415b4f605136570dc3c446caeb7d1ef1" <==>
        exists x :: x in indexes && x.role == Foxhole && k.file in x.trust)
  }

  ghost predicate SoundBinding(b: Binding, packages: seq<Package>, indexes: seq<Index>, owned: set<string>) {
    && IsPackage(b.name) && IsVersion(b.version) && IsName(b.architecture) && IsSha(b.packageIdentity)
    && exists p, x :: p in packages && x in indexes && Package(b.file, b.name, b.version, b.architecture) == p
                      && b.indexFile == x.file && (x.role == Foxhole <==> p.name in owned)
  }

  ghost predicate SoundTrust(d: Document) {
    && (forall x :: x in d.indexes ==> SoundIndex(x))
    && (forall i, j :: 0 <= i < j < |d.indexes| ==> d.indexes[i].file != d.indexes[j].file)
    && (forall x, y, key :: x in d.indexes && y in d.indexes && key in x.trust && key in y.trust ==> x.role == y.role)
    && (forall x, y :: x in d.indexes && y in d.indexes ==> y.file !in x.trust)
    && (forall k :: k in d.trustKeys ==> SoundKey(k, d.files, d.indexes))
    && (forall i, j :: 0 <= i < j < |d.trustKeys| ==>
          d.trustKeys[i].file != d.trustKeys[j].file && d.trustKeys[i].sha256 != d.trustKeys[j].sha256)
    && (forall key :: Named(d.indexes, key) <==> Recorded(d.trustKeys, key))
    && |d.trustKeys| <= 32
  }

  ghost predicate Named(indexes: seq<Index>, key: string) {
    exists x :: x in indexes && key in x.trust
  }

  ghost predicate Recorded(trust: seq<TrustKey>, key: string) {
    exists k :: k in trust && k.file == key
  }

  lemma IndexInNumbers(x: Index)
    ensures IndexOk(x) <==> SoundIndex(x)
  {
    hide IsName, IsSha;
  }

  lemma KeyInNumbers(k: TrustKey, files: map<string, string>, indexes: seq<Index>)
    ensures KeyOk(k, files, indexes) <==> SoundKey(k, files, indexes)
  {
    hide IsName, IsSha;
    if ServedByFoxhole(indexes, k.file) {
      var i :| 0 <= i < |indexes| && indexes[i].role == Foxhole && k.file in indexes[i].trust;
      assert indexes[i] in indexes;
    }
  }

  lemma BindingInNumbers(b: Binding, packages: seq<Package>, indexes: seq<Index>, owned: set<string>)
    ensures IdentityOk(b) && Bound(b, packages, indexes, owned) <==> SoundBinding(b, packages, indexes, owned)
  {
    hide IsName, IsSha, IsPackage, IsVersion;
    if Bound(b, packages, indexes, owned) {
      var i, j :| 0 <= i < |packages| && 0 <= j < |indexes| && Binds(b, packages[i], indexes[j], owned);
      assert packages[i] in packages && indexes[j] in indexes;
    }
    if p, x :| p in packages && x in indexes && Package(b.file, b.name, b.version, b.architecture) == p
               && b.indexFile == x.file && (x.role == Foxhole <==> p.name in owned) {
      var i :| 0 <= i < |packages| && packages[i] == p;
      var j :| 0 <= j < |indexes| && indexes[j] == x;
      assert Binds(b, packages[i], indexes[j], owned);
    }
  }

  lemma IndexesInNumbers(indexes: seq<Index>)
    ensures IndexesAdmitted(indexes) <==>
            && (forall x :: x in indexes ==> SoundIndex(x))
            && (forall i, j :: 0 <= i < j < |indexes| ==> indexes[i].file != indexes[j].file)
            && forall x, y, key :: x in indexes && y in indexes && key in x.trust && key in y.trust ==> x.role == y.role
  {
    forall x | x in indexes ensures IndexOk(x) <==> SoundIndex(x) { IndexInNumbers(x); }
    hide IndexOk, SoundIndex;
    if IndexesAdmitted(indexes) {
      forall x, y, key | x in indexes && y in indexes && key in x.trust && key in y.trust ensures x.role == y.role {
        var i :| 0 <= i < |indexes| && indexes[i] == x;
        var j :| 0 <= j < |indexes| && indexes[j] == y;
        if i < j { assert RolesAgree(indexes[i], indexes[j]); }
        if j < i { assert RolesAgree(indexes[j], indexes[i]); }
      }
    }
  }

  lemma KeyCount(trust: seq<TrustKey>)
    requires forall i, j :: 0 <= i < j < |trust| ==> trust[i].file != trust[j].file
    ensures |KeyFiles(trust)| == |trust|
  {
    var name := (k: TrustKey) => k.file;
    CountDistinct(trust, name);
    assert KeyFiles(trust) == Image(trust, name);
  }

  lemma KeysAreTrusted(indexes: seq<Index>, key: string)
    ensures key in Keys(indexes) <==> Named(indexes, key)
  {
    if key in Keys(indexes) {
      var i :| 0 <= i < |indexes| && key in indexes[i].trust;
      assert indexes[i] in indexes;
    }
  }

  lemma KeyFilesAreRecorded(trust: seq<TrustKey>, key: string)
    ensures key in KeyFiles(trust) <==> Recorded(trust, key)
  {
    if key in KeyFiles(trust) {
      var i :| 0 <= i < |trust| && trust[i].file == key;
      assert trust[i] in trust;
    }
  }

  lemma FilesAreIndexed(indexes: seq<Index>, file: string)
    ensures file in IndexFiles(indexes) <==> Listed(indexes, file)
  {
    if file in IndexFiles(indexes) {
      var i :| 0 <= i < |indexes| && indexes[i].file == file;
      assert indexes[i] in indexes;
    }
  }

  lemma KeysInWords(indexes: seq<Index>, trust: seq<TrustKey>)
    ensures KeyFiles(trust) == Keys(indexes) <==> forall key :: Named(indexes, key) <==> Recorded(trust, key)
  {
    hide Keys, KeyFiles, Named, Recorded;
    forall key
      ensures key in Keys(indexes) <==> Named(indexes, key)
      ensures key in KeyFiles(trust) <==> Recorded(trust, key)
    {
      KeyFilesAreRecorded(trust, key);
      KeysAreTrusted(indexes, key);
    }
    if forall key :: Named(indexes, key) <==> Recorded(trust, key) {
      assert forall key :: key in Keys(indexes) <==> key in KeyFiles(trust);
    }
  }

  lemma KeysApartInWords(indexes: seq<Index>)
    ensures Keys(indexes) !! IndexFiles(indexes) <==> forall x, y :: x in indexes && y in indexes ==> y.file !in x.trust
  {
    hide Keys, IndexFiles;
    forall x, y | x in indexes && y in indexes && y.file in x.trust
      ensures y.file in Keys(indexes) && y.file in IndexFiles(indexes)
    {
      KeysAreTrusted(indexes, y.file);
      FilesAreIndexed(indexes, y.file);
    }
    forall key | key in Keys(indexes) && key in IndexFiles(indexes)
      ensures exists x, y :: x in indexes && y in indexes && y.file in x.trust
    {
      KeysAreTrusted(indexes, key);
      FilesAreIndexed(indexes, key);
    }
  }

  lemma TrustInNumbers(d: Document)
    ensures Trusted(d) <==> SoundTrust(d)
  {
    IndexesInNumbers(d.indexes);
    KeysInWords(d.indexes, d.trustKeys);
    KeysApartInWords(d.indexes);
    KeysAdmittedInNumbers(d.trustKeys, d.files, d.indexes);
    if KeysAdmitted(d.trustKeys, d.files, d.indexes) { KeyCount(d.trustKeys); }
    hide SoundKey, SoundIndex, Keys, KeyFiles, IndexFiles, IndexesAdmitted, KeysAdmitted, Named, Recorded;
  }

  lemma KeysAdmittedInNumbers(trust: seq<TrustKey>, files: map<string, string>, indexes: seq<Index>)
    ensures KeysAdmitted(trust, files, indexes) <==>
            && (forall k :: k in trust ==> SoundKey(k, files, indexes))
            && forall i, j :: 0 <= i < j < |trust| ==>
                 trust[i].file != trust[j].file && trust[i].sha256 != trust[j].sha256
  {
    forall k | k in trust ensures KeyOk(k, files, indexes) <==> SoundKey(k, files, indexes) {
      KeyInNumbers(k, files, indexes);
    }
    hide KeyOk, SoundKey;
  }

  /** The totals are sums over the records, in any order of adding them up. */
  lemma {:induction false} TotalsAreSums(a: seq<Index>, b: seq<Index>, x: Index, k: seq<TrustKey>, m: seq<TrustKey>,
                                         y: TrustKey)
    ensures IndexTotal(a + b) == IndexTotal(a) + IndexTotal(b) && IndexTotal([]) == 0
    ensures x.bytes.Some? ==> IndexTotal([x]) == x.bytes.value
    ensures KeyTotal(k + m) == KeyTotal(k) + KeyTotal(m) && KeyTotal([]) == 0
    ensures y.bytes.Some? ==> KeyTotal([y]) == y.bytes.value
    decreases |a| + |k|
  {
    if a != [] {
      TotalsAreSums(a[1..], b, x, [], m, y);
      assert (a + b)[1..] == a[1..] + b;
    } else {
      assert a + b == b;
    }
    if k != [] {
      TotalsAreSums([], b, x, k[1..], m, y);
      assert (k + m)[1..] == k[1..] + m;
    } else {
      assert k + m == m;
    }
  }

  ghost predicate SoundLimits(d: Document, packages: seq<Package>, owned: set<string>) {
    && 1 <= |owned| <= 26 && (forall name :: name in owned ==> IsPackage(name)) && d.signed
    && 1 <= |d.indexes| <= 16 && 1 <= |packages| <= 256 && |d.bindings| == |packages|
  }

  ghost predicate SoundBindings(bindings: seq<Binding>, packages: seq<Package>, indexes: seq<Index>,
                                owned: set<string>) {
    && (forall i, j :: 0 <= i < j < |packages| ==> packages[i].file != packages[j].file)
    && (forall b :: b in bindings ==> SoundBinding(b, packages, indexes, owned))
    && forall i, j :: 0 <= i < j < |bindings| ==> bindings[i].file != bindings[j].file
  }

  ghost predicate Packed(packages: seq<Package>, name: string) {
    exists p :: p in packages && p.file == name
  }

  ghost predicate Listed(indexes: seq<Index>, name: string) {
    exists x :: x in indexes && x.file == name
  }

  ghost predicate SoundManifest(d: Document, packages: seq<Package>) {
    forall name ::
      && (name in d.files <==> Packed(packages, name) || Listed(d.indexes, name) || Named(d.indexes, name))
      && !(Packed(packages, name) && (Listed(d.indexes, name) || Named(d.indexes, name)))
  }

  ghost predicate SoundTotals(d: Document) {
    && d.indexBytes == Some(IndexTotal(d.indexes)) && 0 <= IndexTotal(d.indexes) <= 9007199254740991
    && d.keyBytes == Some(KeyTotal(d.trustKeys)) && 0 <= KeyTotal(d.trustKeys) <= 9007199254740991
  }

  /** Acceptance in the words of the document: at most 26 owned names, 16 indexes, 32 keys and 256 packages; every
      part sound; packages, indexes and keys apart and together the manifest; a binding for each package; exact
      totals. */
  ghost predicate Acceptable(d: Document, packages: seq<Package>, owned: set<string>) {
    && SoundLimits(d, packages, owned) && SoundTrust(d) && SoundBindings(d.bindings, packages, d.indexes, owned)
    && SoundManifest(d, packages) && SoundTotals(d)
  }

  lemma BindingsInNumbers(bindings: seq<Binding>, packages: seq<Package>, indexes: seq<Index>, owned: set<string>)
    requires |bindings| == |packages|
    ensures Complete(bindings, packages, indexes, owned) <==> SoundBindings(bindings, packages, indexes, owned)
  {
    forall b | b in bindings
      ensures IdentityOk(b) && Bound(b, packages, indexes, owned) <==> SoundBinding(b, packages, indexes, owned)
    {
      BindingInNumbers(b, packages, indexes, owned);
    }
    hide IdentityOk, Bound, SoundBinding;
    if FilesDiffer(packages) && BindingsAdmitted(bindings, packages, indexes, owned) {
      CompletenessIsImplied(bindings, packages, indexes, owned);
    }
  }

  lemma PackagesArePacked(packages: seq<Package>, name: string)
    ensures name in PackageFiles(packages) <==> Packed(packages, name)
  {
    if name in PackageFiles(packages) {
      var i :| 0 <= i < |packages| && packages[i].file == name;
      assert packages[i] in packages;
    }
  }

  lemma ManifestInWords(d: Document, packages: seq<Package>)
    ensures ManifestExact(d, packages) <==> SoundManifest(d, packages)
  {
    hide Keys, IndexFiles, PackageFiles, Packed, Listed, Named;
    forall name
      ensures name in PackageFiles(packages) <==> Packed(packages, name)
      ensures name in IndexFiles(d.indexes) <==> Listed(d.indexes, name)
      ensures name in Keys(d.indexes) <==> Named(d.indexes, name)
    {
      PackagesArePacked(packages, name);
      FilesAreIndexed(d.indexes, name);
      KeysAreTrusted(d.indexes, name);
    }
    if SoundManifest(d, packages) {
      assert forall name :: name in d.files <==>
        name in PackageFiles(packages) || name in IndexFiles(d.indexes) || name in Keys(d.indexes);
    }
  }

  lemma LimitsInNumbers(d: Document, packages: seq<Package>, owned: set<string>)
    ensures Limits(d, packages, owned) <==> SoundLimits(d, packages, owned)
  {
    hide IsPackage;
  }

  lemma TotalsInNumbers(d: Document)
    ensures TotalsAgree(d) <==> SoundTotals(d)
  {
    hide IndexTotal, KeyTotal;
  }

  lemma AdmittedInNumbers(d: Document, packages: seq<Package>, owned: set<string>)
    ensures Admitted(d, packages, owned) <==> Acceptable(d, packages, owned)
  {
    TrustInNumbers(d);
    ManifestInWords(d, packages);
    LimitsInNumbers(d, packages, owned);
    TotalsInNumbers(d);
    if SoundLimits(d, packages, owned) { BindingsInNumbers(d.bindings, packages, d.indexes, owned); }
    hide Trusted, SoundTrust, ManifestExact, SoundManifest, Complete, SoundBindings, TotalsAgree, SoundTotals;
    hide Limits, SoundLimits;
  }

  // ---------------------------------------------------------------- what acceptance means

  ghost function Image<T(!new)>(s: seq<T>, name: T -> string): set<string> {
    set i | 0 <= i < |s| :: name(s[i])
  }

  lemma {:induction false} CountDistinct<T(!new)>(s: seq<T>, name: T -> string)
    requires forall i, j :: 0 <= i < j < |s| ==> name(s[i]) != name(s[j])
    ensures |Image(s, name)| == |s|
  {
    if s != [] {
      var front := s[..|s| - 1];
      CountDistinct(front, name);
      assert Image(s, name) == Image(front, name) + {name(s[|s| - 1])};
    }
  }

  lemma PackageCount(packages: seq<Package>)
    requires FilesDiffer(packages)
    ensures |PackageFiles(packages)| == |packages|
  {
    var name := (p: Package) => p.file;
    CountDistinct(packages, name);
    assert PackageFiles(packages) == Image(packages, name);
  }

  lemma IndexCount(indexes: seq<Index>)
    requires IndexesAdmitted(indexes)
    ensures |IndexFiles(indexes)| == |indexes|
  {
    var name := (x: Index) => x.file;
    CountDistinct(indexes, name);
    assert IndexFiles(indexes) == Image(indexes, name);
  }

  lemma BindingCount(bindings: seq<Binding>)
    requires forall k, m :: 0 <= k < m < |bindings| ==> bindings[k].file != bindings[m].file
    ensures |BindingFiles(bindings)| == |bindings|
  {
    var name := (b: Binding) => b.file;
    CountDistinct(bindings, name);
    assert BindingFiles(bindings) == Image(bindings, name);
  }

  /** Every file of the manifest is a package, an index or a trust key, and never two of them; so the manifest
      has as many entries as there are packages, indexes and keys. */
  lemma ManifestIsPartitioned(d: Document, packages: seq<Package>, owned: set<string>)
    requires Admitted(d, packages, owned)
    ensures PackageFiles(packages) !! IndexFiles(d.indexes) && PackageFiles(packages) !! Keys(d.indexes)
            && IndexFiles(d.indexes) !! Keys(d.indexes)
    ensures d.files.Keys == PackageFiles(packages) + IndexFiles(d.indexes) + Keys(d.indexes)
    ensures |d.files| == |packages| + |d.indexes| + |d.trustKeys|
  {
    PackageCount(packages);
    IndexCount(d.indexes);
    ThreeParts(d.files.Keys, PackageFiles(packages), IndexFiles(d.indexes), Keys(d.indexes));
    assert |d.files| == |d.files.Keys|;
  }

  lemma ThreeParts(all: set<string>, a: set<string>, b: set<string>, c: set<string>)
    requires all == a + b + c && a !! b + c && c !! b
    ensures |all| == |a| + |b| + |c| && a !! b && a !! c
  {
    assert (a + b) !! c;
  }

  /** Bindings and packages are in bijection by file, and each pair carries one identity and one index. */
  lemma BindingsAreABijection(bindings: seq<Binding>, packages: seq<Package>, indexes: seq<Index>, owned: set<string>)
    requires Complete(bindings, packages, indexes, owned)
    ensures forall k :: 0 <= k < |bindings| ==> Bound(bindings[k], packages, indexes, owned)
    ensures forall i :: 0 <= i < |packages| ==> exists k :: 0 <= k < |bindings| && bindings[k].file == packages[i].file
    ensures forall k, m :: 0 <= k < |bindings| && 0 <= m < |bindings| && bindings[k].file == bindings[m].file ==> k == m
    ensures |bindings| == |packages|
  {
    BindingCount(bindings);
    PackageCount(packages);
    forall i | 0 <= i < |packages| ensures exists k :: 0 <= k < |bindings| && bindings[k].file == packages[i].file {
      assert packages[i].file in BindingFiles(bindings);
    }
  }

  /** The closing comparison of bound and recorded packages follows from the counts. */
  lemma CompletenessIsImplied(bindings: seq<Binding>, packages: seq<Package>, indexes: seq<Index>, owned: set<string>)
    requires |bindings| == |packages| && FilesDiffer(packages)
    requires BindingsAdmitted(bindings, packages, indexes, owned)
    ensures Complete(bindings, packages, indexes, owned)
  {
    BindingCount(bindings);
    PackageCount(packages);
    forall k | 0 <= k < |bindings| ensures bindings[k].file in PackageFiles(packages) {
      assert Bound(bindings[k], packages, indexes, owned);
    }
    SubsetOfSameSize(BindingFiles(bindings), PackageFiles(packages));
  }

  lemma SubsetOfSameSize(a: set<string>, b: set<string>)
    requires a <= b && |a| == |b|
    ensures a == b
  {
    assert |b - a| == |b| - |a|;
  }

  /** The package and the index that a binding names are unique, so the role of that index says who owns it. */
  lemma OwnedExactlyInFoxhole(bindings: seq<Binding>, packages: seq<Package>, indexes: seq<Index>, owned: set<string>,
                              k: nat, i: nat, j: nat)
    requires IndexesAdmitted(indexes) && Complete(bindings, packages, indexes, owned)
    requires k < |bindings| && i < |packages| && j < |indexes|
    requires bindings[k].file == packages[i].file && bindings[k].indexFile == indexes[j].file
    ensures indexes[j].role == Foxhole <==> packages[i].name in owned
  {
    assert Bound(bindings[k], packages, indexes, owned);
    var p, q :| 0 <= p < |packages| && 0 <= q < |indexes| && Binds(bindings[k], packages[p], indexes[q], owned);
    assert p == i && q == j;
  }

  /** The canonical digest belongs only to the canonical file, and to a key no upstream index trusts. */
  lemma CanonicalKey(indexes: seq<Index>, trust: seq<TrustKey>, files: map<string, string>, k: nat)
    requires IndexesAdmitted(indexes) && KeysAdmitted(trust, files, indexes) && k < |trust|
    ensures trust[k].sha256 == CANONICAL_SHA <==> ServedByFoxhole(indexes, trust[k].file)
    ensures trust[k].sha256 == CANONICAL_SHA ==> trust[k].file == CANONICAL_KEY
    ensures trust[k].sha256 == CANONICAL_SHA ==>
              forall i :: 0 <= i < |indexes| && trust[k].file in indexes[i].trust ==> indexes[i].role == Foxhole
  {
    assert KeyOk(trust[k], files, indexes);
    var key := trust[k].file;
    if ServedByFoxhole(indexes, key) {
      var i :| 0 <= i < |indexes| && indexes[i].role == Foxhole && key in indexes[i].trust;
      assert IndexOk(indexes[i]);
      forall j | 0 <= j < |indexes| && key in indexes[j].trust ensures indexes[j].role == Foxhole {
        if j < i { assert RolesAgree(indexes[j], indexes[i]); }
        if i < j { assert RolesAgree(indexes[i], indexes[j]); }
      }
    }
  }

  /** An owned package brings the canonical key into the manifest with its canonical digest. */
  lemma OwnedNeedsCanonicalKey(d: Document, packages: seq<Package>, owned: set<string>, i: nat)
    requires Trusted(d) && Complete(d.bindings, packages, d.indexes, owned)
    requires i < |packages| && packages[i].name in owned
    ensures CANONICAL_KEY in d.files && d.files[CANONICAL_KEY] == CANONICAL_SHA
  {
    assert packages[i].file in BindingFiles(d.bindings);
    var k :| 0 <= k < |d.bindings| && d.bindings[k].file == packages[i].file;
    assert Bound(d.bindings[k], packages, d.indexes, owned);
    var p, j :| 0 <= p < |packages| && 0 <= j < |d.indexes| && Binds(d.bindings[k], packages[p], d.indexes[j], owned);
    assert p == i;
    FoxholeIndexBringsKey(d.indexes, d.trustKeys, d.files, j);
  }

  lemma FoxholeIndexBringsKey(indexes: seq<Index>, trust: seq<TrustKey>, files: map<string, string>, j: nat)
    requires IndexesAdmitted(indexes) && KeysAdmitted(trust, files, indexes) && KeyFiles(trust) == Keys(indexes)
    requires j < |indexes| && indexes[j].role == Foxhole
    ensures CANONICAL_KEY in files && files[CANONICAL_KEY] == CANONICAL_SHA
  {
    assert IndexOk(indexes[j]);
    assert indexes[j].trust[0] == CANONICAL_KEY;
    assert CANONICAL_KEY in indexes[j].trust && CANONICAL_KEY in KeyFiles(trust);
    var m :| 0 <= m < |trust| && trust[m].file == CANONICAL_KEY;
    assert ServedByFoxhole(indexes, CANONICAL_KEY);
    assert KeyOk(trust[m], files, indexes);
  }
}
