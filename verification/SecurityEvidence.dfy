/** Admission of reviewed advisory exceptions. Documents are given as values: a map of documents holds
    those whose digest was found to be the expected one. */
module SecurityEvidence {
  import opened Collections
  import opened Wrappers

  datatype Coordinate = Coordinate(package: string, version: string)

  datatype Entry = Entry(ecosystem: string, coordinate: Coordinate, expires: int, advisory: string,
                         affectedPackages: seq<string>)

  datatype Affected = Affected(name: string, ecosystem: string, imports: seq<string>)
  datatype Advisory = Advisory(id: string, affected: seq<Affected>, aliases: set<string>, fixed: set<string>)

  datatype AliasPair = AliasPair(advisory: string, canonical: string)

  /** One scanned coordinate with the findings reported for it; a finding may lack an id. */
  datatype Scanned = Scanned(ecosystem: string, coordinate: Coordinate, findings: seq<Option<string>>)

  datatype Package = Package(importPath: string, name: string, imports: seq<string>, incomplete: bool,
                             replaced: bool, modulePath: Option<string>, moduleVersion: Option<string>,
                             sources: set<string>)

  /** `delivered` stands for the digest, producer and build-scope checks; `deps` are the build's modules. */
  datatype Target = Target(arch: string, delivered: bool, deps: set<Coordinate>, packageCount: int,
                           graph: seq<Package>, files: map<string, set<string>>)

  const REVIEWED := {Some("GO-2026-5841"), Some("GO-2026-5932")}
  const DUPLICATE := "GHSA-259r-337f-4rfw"
  const ORIGINAL := "GO-2026-5841"
  const SHARED := "CVE-2026-63209"
  const MODULE := "github.com/klauspost/compress"

  // ---------------------------------------------------------------- the exception list

  /** The package paths that an advisory names for a module. */
  ghost function PathsFor(a: Advisory, module_: string): set<string> {
    set i, p | 0 <= i < |a.affected| && a.affected[i].name == module_ && a.affected[i].ecosystem == "Go"
               && p in a.affected[i].imports :: p
  }

  method AffectedPaths(a: Advisory, module_: string) returns (paths: set<string>)
    ensures paths == PathsFor(a, module_)
  {
    paths := {};
    for n := 0 to |a.affected|
      invariant paths == set i, p | 0 <= i < n && a.affected[i].name == module_ && a.affected[i].ecosystem == "Go"
                                    && p in a.affected[i].imports :: p
    {
      var row := a.affected[n];
      if row.name == module_ && row.ecosystem == "Go" {
        paths := paths + set p | p in row.imports;
      }
    }
  }

  ghost predicate EntryAdmitted(e: Entry, today: int, docs: map<string, Advisory>) {
    && e.ecosystem == "Go" && e.coordinate.package != "" && e.coordinate.version != "" && today <= e.expires
    && e.advisory in docs && docs[e.advisory].id == e.advisory
    && PathsFor(docs[e.advisory], e.coordinate.package) != {}
    && PathsFor(docs[e.advisory], e.coordinate.package) == set p | p in e.affectedPackages
  }

  ghost predicate EntriesAdmitted(entries: seq<Entry>, today: int, docs: map<string, Advisory>) {
    && |entries| == 2
    && (forall i :: 0 <= i < |entries| ==> EntryAdmitted(entries[i], today, docs))
    && entries[0].coordinate != entries[1].coordinate
    && {Some(entries[0].advisory), Some(entries[1].advisory)} == REVIEWED
  }

  datatype Exceptions = Exceptions(coordinates: map<Coordinate, string>, forbidden: set<string>,
                                   versions: map<string, string>)

  function Listed(coordinates: map<Coordinate, string>): set<Option<string>> {
    set c | c in coordinates :: Some(coordinates[c])
  }

  ghost function ExceptionsOf(entries: seq<Entry>): Exceptions {
    if entries == [] then Exceptions(map[], {}, map[])
    else
      var e := entries[|entries| - 1];
      var x := ExceptionsOf(entries[..|entries| - 1]);
      Exceptions(x.coordinates[e.coordinate := e.advisory], x.forbidden + (set p | p in e.affectedPackages),
                 x.versions[e.coordinate.package := e.coordinate.version])
  }

  method ReadExceptions(entries: seq<Entry>, today: int, docs: map<string, Advisory>) returns (r: Result<Exceptions>)
    ensures r.Ok? <==> EntriesAdmitted(entries, today, docs)
    ensures r.Ok? ==> r.value == ExceptionsOf(entries)
  {
    hide PathsFor;
    if |entries| != 2 { return Refused("Exactly reviewed Hysteria exceptions required"); }
    var x := Exceptions(map[], {}, map[]);
    for n := 0 to |entries|
      invariant x == ExceptionsOf(entries[..n])
      invariant x.coordinates.Keys == set i | 0 <= i < n :: entries[i].coordinate
      invariant forall i :: 0 <= i < n ==> EntryAdmitted(entries[i], today, docs)
      invariant n == 2 ==> entries[0].coordinate != entries[1].coordinate
    {
      var e := entries[n];
      assert entries[..n + 1][..n] == entries[..n];
      if e.ecosystem != "Go" || e.coordinate.package == "" || e.coordinate.version == "" {
        return Refused("Exact exception version required");
      }
      if e.coordinate in x.coordinates { return Refused("Duplicate exception coordinate"); }
      if e.expires < today { return Refused("Security exception expired"); }
      if e.advisory !in docs || docs[e.advisory].id != e.advisory { return Refused("Advisory identity differs"); }
      var paths := AffectedPaths(docs[e.advisory], e.coordinate.package);
      if paths == {} || paths != (set p | p in e.affectedPackages) {
        return Refused("Affected package scope differs from primary advisory");
      }
      x := Exceptions(x.coordinates[e.coordinate := e.advisory], x.forbidden + paths,
                      x.versions[e.coordinate.package := e.coordinate.version]);
    }
    assert entries[..2] == entries;
    TwoExceptions(entries);
    if Listed(x.coordinates) != REVIEWED {
      return Refused("Unreviewed advisory exception");
    }
    return Ok(x);
  }

  lemma TwoExceptions(entries: seq<Entry>)
    requires |entries| == 2
    ensures ExceptionsOf(entries) ==
            Exceptions(map[entries[0].coordinate := entries[0].advisory][entries[1].coordinate := entries[1].advisory],
                       (set p | p in entries[0].affectedPackages) + (set p | p in entries[1].affectedPackages),
                       map[entries[0].coordinate.package := entries[0].coordinate.version]
                          [entries[1].coordinate.package := entries[1].coordinate.version])
    ensures entries[0].coordinate != entries[1].coordinate ==>
              Listed(ExceptionsOf(entries).coordinates) == {Some(entries[0].advisory), Some(entries[1].advisory)}
  {
    var one := entries[..1];
    assert |one| == 1 && one[0] == entries[0] && one[..0] == [] && entries[..|entries| - 1] == one;
    assert ExceptionsOf(one) == Exceptions(map[entries[0].coordinate := entries[0].advisory],
                                           set p | p in entries[0].affectedPackages,
                                           map[entries[0].coordinate.package := entries[0].coordinate.version]);
    var all := ExceptionsOf(entries).coordinates;
    if entries[0].coordinate != entries[1].coordinate {
      assert all[entries[0].coordinate] == entries[0].advisory && all[entries[1].coordinate] == entries[1].advisory;
      assert Some(entries[0].advisory) in Listed(all) && Some(entries[1].advisory) in Listed(all);
    }
  }

  // ---------------------------------------------------------------- the reviewed duplicate

  predicate AliasAdmitted(p: AliasPair, coordinates: map<Coordinate, string>, docs: map<string, Advisory>) {
    && p == AliasPair(DUPLICATE, ORIGINAL)
    && Coordinate(MODULE, "v1.17.9") in coordinates && coordinates[Coordinate(MODULE, "v1.17.9")] == ORIGINAL
    && ORIGINAL in docs && DUPLICATE in docs && docs[DUPLICATE].id == DUPLICATE
    && {DUPLICATE, SHARED} <= docs[ORIGINAL].aliases && SHARED in docs[DUPLICATE].aliases
    && docs[DUPLICATE].affected != []
    && (forall i :: 0 <= i < |docs[DUPLICATE].affected| ==>
          docs[DUPLICATE].affected[i].name == MODULE && docs[DUPLICATE].affected[i].ecosystem == "Go")
    && "1.18.7" in docs[DUPLICATE].fixed
  }

  function ReadAliases(pairs: seq<AliasPair>, coordinates: map<Coordinate, string>, docs: map<string, Advisory>)
    : (r: Result<map<string, string>>)
  {
    if |pairs| > 1 then Refused("Only the exact reviewed duplicate advisory pair is allowed")
    else if pairs == [] then Ok(map[])
    else if AliasAdmitted(pairs[0], coordinates, docs) then Ok(map[pairs[0].advisory := pairs[0].canonical])
    else Refused("Exact reviewed alias and coordinate required")
  }

  // ---------------------------------------------------------------- the findings

  /** The lookups with a missing id or an unlisted coordinate give None, as they do in the source. */
  function Canonical(id: Option<string>, aliases: map<string, string>): Option<string> {
    if id.Some? && id.value in aliases then Some(aliases[id.value]) else id
  }

  function AdvisoryAt(c: Coordinate, coordinates: map<Coordinate, string>): Option<string> {
    if c in coordinates then Some(coordinates[c]) else None
  }

  /** All findings in order of the scan. */
  function Findings(scan: seq<Scanned>): seq<Option<string>> {
    if scan == [] then [] else Findings(scan[..|scan| - 1]) + scan[|scan| - 1].findings
  }

  ghost predicate Matches(s: Scanned, coordinates: map<Coordinate, string>, aliases: map<string, string>) {
    && s.ecosystem == "Go"
    && forall k :: 0 <= k < |s.findings| ==> Canonical(s.findings[k], aliases) == AdvisoryAt(s.coordinate, coordinates)
  }

  function Canonicals(found: seq<Option<string>>, aliases: map<string, string>): (r: seq<Option<string>>) {
    seq(|found|, k requires 0 <= k < |found| => Canonical(found[k], aliases))
  }

  ghost predicate ScanMatches(scan: seq<Scanned>, coordinates: map<Coordinate, string>, aliases: map<string, string>) {
    && (forall i :: 0 <= i < |scan| ==> Matches(scan[i], coordinates, aliases))
    && (forall i, j :: 0 <= i < j < |scan| ==> scan[i].coordinate != scan[j].coordinate)
    && Distinct(Findings(scan))
  }

  predicate Retained(found: seq<Option<string>>, canonical: seq<Option<string>>, coordinates: map<Coordinate, string>,
                     aliases: map<string, string>) {
    && |found| == 2 + |aliases|
    && (set f | f in found) == Listed(coordinates) + (set a | a in aliases :: Some(a))
    && (set f | f in canonical) == Listed(coordinates)
  }

  ghost predicate ScanAdmitted(scan: seq<Scanned>, coordinates: map<Coordinate, string>, aliases: map<string, string>) {
    && ScanMatches(scan, coordinates, aliases)
    && Retained(Findings(scan), Canonicals(Findings(scan), aliases), coordinates, aliases)
  }

  /** One response: every finding must canonically be the advisory listed for this coordinate, and be new. */
  method MatchResponse(s: Scanned, coordinates: map<Coordinate, string>, aliases: map<string, string>,
                       before: seq<Option<string>>) returns (ok: bool, found: seq<Option<string>>)
    requires Distinct(before)
    ensures ok <==> Matches(s, coordinates, aliases) && Distinct(before + s.findings)
    ensures ok ==> found == before + s.findings
  {
    found := before;
    if s.ecosystem != "Go" { return false, found; }
    for k := 0 to |s.findings|
      invariant found == before + s.findings[..k] && Distinct(found)
      invariant forall m :: 0 <= m < k ==> Canonical(s.findings[m], aliases) == AdvisoryAt(s.coordinate, coordinates)
    {
      var id := s.findings[k];
      if Canonical(id, aliases) != AdvisoryAt(s.coordinate, coordinates) { return false, found; }
      if id in found {
        ghost var all := before + s.findings;
        ghost var m :| 0 <= m < |found| && found[m] == id;
        assert all[m] == all[|before| + k];
        return false, found;
      }
      found := found + [id];
    }
    assert s.findings[..|s.findings|] == s.findings;
    ok := true;
  }

  method MatchFindings(scan: seq<Scanned>, coordinates: map<Coordinate, string>, aliases: map<string, string>)
    returns (r: Result<seq<Option<string>>>)
    ensures r.Ok? <==> ScanAdmitted(scan, coordinates, aliases)
    ensures r.Ok? ==> r.value == Findings(scan)
  {
    var findings: seq<Option<string>> := [];
    var queried: set<Coordinate> := {};
    assert ScanMatches(scan[..0], coordinates, aliases);
    hide Retained, Canonicals, Listed, Matches, Distinct;
    for n := 0 to |scan|
      invariant findings == Findings(scan[..n]) && ScanMatches(scan[..n], coordinates, aliases)
      invariant queried == set i | 0 <= i < n :: scan[i].coordinate
    {
      ScanMatchesSnoc(scan, n, coordinates, aliases);
      if scan[n].coordinate in queried { return Refused("Duplicate scanned coordinate"); }
      queried := queried + {scan[n].coordinate};
      var ok, found := MatchResponse(scan[n], coordinates, aliases, findings);
      if !ok { return Refused("Unqualified public vulnerability finding"); }
      findings := found;
    }
    assert scan[..|scan|] == scan;
    if !Retained(findings, Canonicals(findings, aliases), coordinates, aliases) {
      return Refused("Exact raw canonical and reviewed duplicate findings must be retained");
    }
    return Ok(findings);
  }

  lemma ScanMatchesSnoc(scan: seq<Scanned>, n: nat, coordinates: map<Coordinate, string>, aliases: map<string, string>)
    requires n < |scan|
    ensures Findings(scan[..n + 1]) == Findings(scan[..n]) + scan[n].findings
    ensures (&& ScanMatches(scan[..n], coordinates, aliases) && Matches(scan[n], coordinates, aliases)
             && (forall i :: 0 <= i < n ==> scan[i].coordinate != scan[n].coordinate)
             && Distinct(Findings(scan[..n]) + scan[n].findings)) ==>
              ScanMatches(scan[..n + 1], coordinates, aliases)
    ensures ScanMatches(scan, coordinates, aliases) ==>
              && Matches(scan[n], coordinates, aliases)
              && (forall i :: 0 <= i < n ==> scan[i].coordinate != scan[n].coordinate)
              && Distinct(Findings(scan[..n]) + scan[n].findings)
  {
    hide Matches;
    FindingsSnoc(scan, n);
    FindingsPrefix(scan, n + 1);
    DistinctPrefix(Findings(scan[..n + 1]), Findings(scan));
  }

  lemma DistinctPrefix<T>(a: seq<T>, b: seq<T>)
    requires a <= b
    ensures Distinct(b) ==> Distinct(a)
  {
  }

  lemma FindingsSnoc(scan: seq<Scanned>, n: nat)
    requires n < |scan|
    ensures Findings(scan[..n + 1]) == Findings(scan[..n]) + scan[n].findings
  {
    assert scan[..n + 1][..n] == scan[..n];
  }

  lemma {:induction false} FindingsPrefix(scan: seq<Scanned>, n: nat)
    requires n <= |scan|
    ensures Findings(scan[..n]) <= Findings(scan)
    decreases |scan| - n
  {
    if n == |scan| {
      assert scan[..n] == scan;
    } else {
      FindingsSnoc(scan, n);
      FindingsPrefix(scan, n + 1);
    }
  }

  lemma {:induction false} FoundSomewhere(scan: seq<Scanned>, id: Option<string>) returns (i: nat)
    requires id in Findings(scan)
    ensures i < |scan| && id in scan[i].findings
  {
    var n := |scan| - 1;
    if id in scan[n].findings { i := n; } else { i := FoundSomewhere(scan[..n], id); }
  }

  // ---------------------------------------------------------------- the selected packages

  ghost function Names(graph: seq<Package>): set<string> {
    set i | 0 <= i < |graph| :: graph[i].importPath
  }

  ghost predicate PackageAdmitted(p: Package, names: set<string>, t: Target, x: Exceptions) {
    && PackageSound(p, names, t.files)
    && (Tracked(p, x) ==> p.moduleVersion == Some(x.versions[p.modulePath.value]))
  }

  ghost predicate GraphAdmitted(t: Target, x: Exceptions) {
    var names := Names(t.graph);
    && t.delivered && x.coordinates.Keys <= t.deps
    && 1 <= t.packageCount <= 4096 && |t.graph| == t.packageCount && t.graph[|t.graph| - 1].name == "main"
    && (forall i, j :: 0 <= i < j < |t.graph| ==> t.graph[i].importPath != t.graph[j].importPath)
    && x.forbidden !! names
    && t.files.Keys == names
    && (forall i :: 0 <= i < |t.graph| ==> PackageAdmitted(t.graph[i], names, t, x))
    && forall m :: m in x.versions ==> Provided(m, t.graph, |t.graph|)
  }

  method SelectedNames(graph: seq<Package>) returns (selected: set<string>)
    ensures selected == Names(graph)
    ensures |selected| == |graph| <==>
            forall i, j :: 0 <= i < j < |graph| ==> graph[i].importPath != graph[j].importPath
  {
    selected := {};
    for n := 0 to |graph|
      invariant selected == set k | 0 <= k < n :: graph[k].importPath
      invariant |selected| <= n
      invariant |selected| == n <==> forall i, j :: 0 <= i < j < n ==> graph[i].importPath != graph[j].importPath
    {
      selected := selected + {graph[n].importPath};
    }
  }

  predicate PackageSound(p: Package, names: set<string>, files: map<string, set<string>>) {
    && !p.incomplete && !p.replaced
    && (forall k :: 0 <= k < |p.imports| ==> p.imports[k] in names)
    && p.importPath in files && files[p.importPath] == p.sources
  }

  predicate Tracked(p: Package, x: Exceptions) {
    p.modulePath.Some? && p.modulePath.value in x.versions
  }

  /** The table built so far: the version of every package that belongs to a module with an exception. */
  ghost predicate VersionsOf(versions: map<string, Option<string>>, graph: seq<Package>, n: nat, x: Exceptions) {
    && n <= |graph|
    && (forall k :: 0 <= k < n && Tracked(graph[k], x) ==>
          graph[k].modulePath.value in versions && versions[graph[k].modulePath.value] == graph[k].moduleVersion)
    && forall m :: m in versions ==> m in x.versions && Provided(m, graph, n)
  }

  ghost predicate Provided(m: string, graph: seq<Package>, n: nat) {
    exists k :: 0 <= k < n && k < |graph| && graph[k].modulePath == Some(m)
  }

  /** The loop over the selected packages, in order, with the version table. */
  method ReadVersions(graph: seq<Package>, selected: set<string>, files: map<string, set<string>>, x: Exceptions)
    returns (ok: bool, versions: map<string, Option<string>>)
    ensures ok ==> VersionsOf(versions, graph, |graph|, x)
    ensures ok ==> forall k :: 0 <= k < |graph| ==> PackageSound(graph[k], selected, files)
    ensures !ok ==>
              || (exists k :: 0 <= k < |graph| && !PackageSound(graph[k], selected, files))
              || (exists k, j :: 0 <= k < j < |graph| && TwoVersions(graph[k], graph[j], x))
  {
    versions := map[];
    for i := 0 to |graph|
      invariant forall k :: 0 <= k < i ==> PackageSound(graph[k], selected, files)
      invariant VersionsOf(versions, graph, i, x)
    {
      var p := graph[i];
      if !PackageSound(p, selected, files) { return false, versions; }
      if Tracked(p, x) {
        var m := p.modulePath.value;
        if m in versions && versions[m] != p.moduleVersion {
          ghost var k :| 0 <= k < i && graph[k].modulePath == Some(m);
          assert TwoVersions(graph[k], graph[i], x);
          return false, versions;
        }
        versions := AddVersion(versions, graph, i, x);
      }
    }
    ok := true;
  }

  method AddVersion(versions: map<string, Option<string>>, graph: seq<Package>, i: nat, x: Exceptions)
    returns (r: map<string, Option<string>>)
    requires i < |graph| && VersionsOf(versions, graph, i, x) && Tracked(graph[i], x)
    requires graph[i].modulePath.value in versions ==> versions[graph[i].modulePath.value] == graph[i].moduleVersion
    ensures VersionsOf(r, graph, i + 1, x)
  {
    r := versions[graph[i].modulePath.value := graph[i].moduleVersion];
    forall m | m in r ensures Provided(m, graph, i + 1) {
      if m in versions { assert Provided(m, graph, i); }
    }
  }

  ghost predicate TwoVersions(p: Package, q: Package, x: Exceptions) {
    Tracked(p, x) && p.modulePath == q.modulePath && p.moduleVersion != q.moduleVersion
  }

  /** In the final table every module with an exception has exactly its listed version. */
  predicate VersionsMatch(versions: map<string, Option<string>>, x: Exceptions) {
    versions.Keys == x.versions.Keys && forall m | m in x.versions :: versions[m] == Some(x.versions[m])
  }

  method CheckTarget(t: Target, x: Exceptions) returns (r: Result<()>)
    ensures r.Ok? <==> GraphAdmitted(t, x)
  {
    hide PackageSound, VersionsOf, VersionsMatch, Names, TwoVersions;
    if !t.delivered || !(x.coordinates.Keys <= t.deps) { return Refused("Delivered module version differs"); }
    if !(1 <= t.packageCount <= 4096) || |t.graph| != t.packageCount || t.graph[|t.graph| - 1].name != "main" {
      return Refused("Complete selected application closure required");
    }
    var selected := SelectedNames(t.graph);
    if |selected| != |t.graph| || !(x.forbidden !! selected) {
      return Refused("Affected advisory package became reachable");
    }
    if t.files.Keys != selected { return Refused("Selected source file evidence differs"); }
    var ok, versions := ReadVersions(t.graph, selected, t.files, x);
    if !ok {
      PackagesRefused(t, x);
      return Refused("Selected package evidence is incomplete");
    }
    VersionsDecide(versions, t, x);
    if !VersionsMatch(versions, x) { return Refused("Selected package module version differs"); }
    return Ok(());
  }

  lemma PackagesRefused(t: Target, x: Exceptions)
    requires (exists k :: 0 <= k < |t.graph| && !PackageSound(t.graph[k], Names(t.graph), t.files))
          || (exists k, j :: 0 <= k < j < |t.graph| && TwoVersions(t.graph[k], t.graph[j], x))
    ensures !GraphAdmitted(t, x)
  {
    var names := Names(t.graph);
    assert forall k :: 0 <= k < |t.graph| && PackageAdmitted(t.graph[k], names, t, x) ==>
                         PackageSound(t.graph[k], names, t.files);
    if k, j :| 0 <= k < j < |t.graph| && TwoVersions(t.graph[k], t.graph[j], x) {
      assert PackageAdmitted(t.graph[k], names, t, x) ==> !PackageAdmitted(t.graph[j], names, t, x);
    }
  }

  lemma VersionsDecide(versions: map<string, Option<string>>, t: Target, x: Exceptions)
    requires VersionsOf(versions, t.graph, |t.graph|, x)
    requires forall k :: 0 <= k < |t.graph| ==> PackageSound(t.graph[k], Names(t.graph), t.files)
    ensures VersionsMatch(versions, x) <==>
            && (forall k :: 0 <= k < |t.graph| ==> PackageAdmitted(t.graph[k], Names(t.graph), t, x))
            && (forall m :: m in x.versions ==> Provided(m, t.graph, |t.graph|))
  {
    var names := Names(t.graph);
    if VersionsMatch(versions, x) {
      forall k | 0 <= k < |t.graph| ensures PackageAdmitted(t.graph[k], names, t, x) {
        assert PackageSound(t.graph[k], names, t.files);
      }
    } else if forall m :: m in x.versions ==> Provided(m, t.graph, |t.graph|) {
      forall m | m in x.versions ensures m in versions {
        var k :| 0 <= k < |t.graph| && t.graph[k].modulePath == Some(m);
        assert Tracked(t.graph[k], x);
      }
      assert versions.Keys == x.versions.Keys;
      var m :| m in x.versions && versions[m] != Some(x.versions[m]);
      var k :| 0 <= k < |t.graph| && t.graph[k].modulePath == Some(m);
      assert Tracked(t.graph[k], x) && versions[m] == t.graph[k].moduleVersion;
      assert !PackageAdmitted(t.graph[k], names, t, x);
    }
  }

  // ---------------------------------------------------------------- what acceptance means

  /** `path` follows imports: every name but the last belongs to a selected package that imports the next. */
  ghost predicate ImportChain(path: seq<string>, graph: seq<Package>) {
    forall k :: 0 <= k < |path| - 1 ==> Imports(graph, path[k], path[k + 1])
  }

  ghost predicate Imports(graph: seq<Package>, from: string, target: string) {
    exists i :: 0 <= i < |graph| && graph[i].importPath == from && target in graph[i].imports
  }

  /** No chain of imports, of any length, leaves the selected packages or meets a forbidden one. */
  lemma {:induction false} ForbiddenIsUnreachable(t: Target, x: Exceptions, path: seq<string>)
    requires GraphAdmitted(t, x)
    requires path != [] && path[0] in Names(t.graph) && ImportChain(path, t.graph)
    ensures forall k :: 0 <= k < |path| ==> path[k] in Names(t.graph) && path[k] !in x.forbidden
    decreases |path|
  {
    if |path| > 1 {
      var front := path[..|path| - 1];
      assert ImportChain(front, t.graph) by {
        forall k | 0 <= k < |front| - 1 ensures Imports(t.graph, front[k], front[k + 1]) {
          assert Imports(t.graph, path[k], path[k + 1]);
        }
      }
      ForbiddenIsUnreachable(t, x, front);
      ImportsStayInside(t, x, path[|path| - 2], path[|path| - 1]);
    }
  }

  lemma ImportsStayInside(t: Target, x: Exceptions, from: string, target: string)
    requires GraphAdmitted(t, x) && Imports(t.graph, from, target)
    ensures target in Names(t.graph)
  {
    var i :| 0 <= i < |t.graph| && t.graph[i].importPath == from && target in t.graph[i].imports;
    assert PackageAdmitted(t.graph[i], Names(t.graph), t, x);
    var k :| 0 <= k < |t.graph[i].imports| && t.graph[i].imports[k] == target;
  }

  /** What the exceptions forbid is what the two advisories themselves name. */
  lemma ForbiddenIsAffected(entries: seq<Entry>, today: int, docs: map<string, Advisory>)
    requires EntriesAdmitted(entries, today, docs)
    ensures EntryAdmitted(entries[0], today, docs) && EntryAdmitted(entries[1], today, docs)
    ensures ExceptionsOf(entries).forbidden == PathsFor(docs[entries[0].advisory], entries[0].coordinate.package)
                                               + PathsFor(docs[entries[1].advisory], entries[1].coordinate.package)
  {
    TwoExceptions(entries);
  }

  ghost predicate OwnAdvisories(coordinates: map<Coordinate, string>) {
    && Listed(coordinates) == REVIEWED
    && forall c, d :: c in coordinates && d in coordinates && coordinates[c] == coordinates[d] ==> c == d
  }

  function DuplicateTable(aliased: bool): map<string, string> {
    if aliased then map[DUPLICATE := ORIGINAL] else map[]
  }

  lemma AdvisoriesAreOwn(entries: seq<Entry>, today: int, docs: map<string, Advisory>)
    requires EntriesAdmitted(entries, today, docs)
    ensures OwnAdvisories(ExceptionsOf(entries).coordinates)
  {
    TwoExceptions(entries);
    PairDiffers(Some(entries[0].advisory), Some(entries[1].advisory));
  }

  lemma PairDiffers(a: Option<string>, b: Option<string>)
    requires {a, b} == REVIEWED
    ensures a != b
  {
    var first, second := Some("GO-2026-5841"), Some("GO-2026-5932");
    assert first.value[11] != second.value[11];
    assert first in {a, b} && second in {a, b};
  }

  lemma AliasesAreTheDuplicate(pairs: seq<AliasPair>, coordinates: map<Coordinate, string>, docs: map<string, Advisory>)
    requires ReadAliases(pairs, coordinates, docs).Ok?
    ensures |pairs| <= 1 && ReadAliases(pairs, coordinates, docs).value == DuplicateTable(pairs != [])
  {
  }

  /** The raw ids that a scan must report. */
  function Expected(aliased: bool): set<Option<string>> {
    REVIEWED + if aliased then {Some(DUPLICATE)} else {}
  }

  /** The accepted findings are the two reviewed advisories and the admitted duplicate, each exactly once. */
  lemma FindingsAreTheReviewed(scan: seq<Scanned>, coordinates: map<Coordinate, string>, aliased: bool)
    requires OwnAdvisories(coordinates) && ScanAdmitted(scan, coordinates, DuplicateTable(aliased))
    ensures Distinct(Findings(scan)) && (set f | f in Findings(scan)) == Expected(aliased)
    ensures |Findings(scan)| == if aliased then 3 else 2
  {
    DuplicateIds(aliased);
  }

  lemma DuplicateIds(aliased: bool)
    ensures (set a | a in DuplicateTable(aliased) :: Some(a)) == if aliased then {Some(DUPLICATE)} else {}
    ensures |DuplicateTable(aliased)| == if aliased then 1 else 0
  {
    if aliased { assert DUPLICATE in DuplicateTable(true); }
  }

  /** A reviewed advisory is reported at its own coordinate and nowhere else. */
  lemma ReportedAtItsCoordinate(scan: seq<Scanned>, coordinates: map<Coordinate, string>, aliased: bool, c: Coordinate,
                                i: nat)
    requires OwnAdvisories(coordinates) && ScanAdmitted(scan, coordinates, DuplicateTable(aliased))
    requires c in coordinates && i < |scan|
    ensures Some(coordinates[c]) in scan[i].findings ==> scan[i].coordinate == c
    ensures exists k :: 0 <= k < |scan| && scan[k].coordinate == c && Some(coordinates[c]) in scan[k].findings
  {
    var id := Some(coordinates[c]);
    assert id in Listed(coordinates);
    NotTheDuplicate(id.value);
    if id in scan[i].findings { FoundAt(scan, coordinates, aliased, c, i); }
    var k := FoundSomewhere(scan, id);
    FoundAt(scan, coordinates, aliased, c, k);
  }

  lemma FoundAt(scan: seq<Scanned>, coordinates: map<Coordinate, string>, aliased: bool, c: Coordinate, i: nat)
    requires OwnAdvisories(coordinates) && ScanMatches(scan, coordinates, DuplicateTable(aliased))
    requires c in coordinates && i < |scan| && Some(coordinates[c]) in scan[i].findings
    ensures scan[i].coordinate == c
  {
    var id := Some(coordinates[c]);
    assert id in Listed(coordinates);
    NotTheDuplicate(id.value);
    var k :| 0 <= k < |scan[i].findings| && scan[i].findings[k] == id;
    assert Matches(scan[i], coordinates, DuplicateTable(aliased));
    assert Canonical(scan[i].findings[k], DuplicateTable(aliased)) == id;
  }

  lemma NotTheDuplicate(id: string)
    requires Some(id) in REVIEWED
    ensures id != DUPLICATE
  {
    assert id[1] == 'O' && DUPLICATE[1] == 'H';
  }

  /** The closing count and the canonical comparison add nothing to the comparison of the raw ids. */
  lemma RawComparisonSuffices(scan: seq<Scanned>, coordinates: map<Coordinate, string>, aliased: bool)
    requires OwnAdvisories(coordinates) && ScanMatches(scan, coordinates, DuplicateTable(aliased))
    ensures ScanAdmitted(scan, coordinates, DuplicateTable(aliased)) <==>
            (set f | f in Findings(scan)) == Expected(aliased)
  {
    DuplicateIds(aliased);
    var found := Findings(scan);
    if (set f | f in found) == Expected(aliased) {
      DistinctCount(found);
      ExpectedCount(aliased);
      CanonicalsAreReviewed(found, aliased);
    }
  }

  lemma ExpectedCount(aliased: bool)
    ensures |Expected(aliased)| == if aliased then 3 else 2
  {
    NotTheDuplicate("GO-2026-5841");
    NotTheDuplicate("GO-2026-5932");
    assert "GO-2026-5841"[11] != "GO-2026-5932"[11];
    assert Some(DUPLICATE) !in REVIEWED;
  }

  lemma CanonicalsAreReviewed(found: seq<Option<string>>, aliased: bool)
    requires (set f | f in found) == Expected(aliased)
    ensures (set f | f in Canonicals(found, DuplicateTable(aliased))) == REVIEWED
  {
    var canonical := Canonicals(found, DuplicateTable(aliased));
    forall f | f in REVIEWED ensures f in canonical {
      NotTheDuplicate(f.value);
      assert f in (set g | g in found);
      var k :| 0 <= k < |found| && found[k] == f;
      assert canonical[k] == f;
    }
    forall f | f in canonical ensures f in REVIEWED {
      var k :| 0 <= k < |found| && canonical[k] == f;
      assert found[k] in (set g | g in found);
    }
  }

  // ---------------------------------------------------------------- the whole decision

  /** Times are microseconds; `intact` stands for the schema, digest and request-receipt checks. */
  datatype Evidence = Evidence(intact: bool, now: int, today: int, finished: int, queryCount: int, maxAgeHours: int,
                               entries: seq<Entry>, aliasPairs: seq<AliasPair>, docs: map<string, Advisory>,
                               scan: seq<Scanned>, targets: seq<Target>)

  datatype Report = Report(findings: nat, duplicates: nat)

  const MINUTE := 60_000_000

  predicate Recent(e: Evidence) {
    && 1 <= e.queryCount <= 4096 && 1 <= e.maxAgeHours <= 24 && |e.scan| == e.queryCount
    && -5 * MINUTE <= e.now - e.finished <= e.maxAgeHours * 60 * MINUTE
  }

  predicate BothArchitectures(targets: seq<Target>) {
    |targets| == 2 && {targets[0].arch, targets[1].arch} == {"amd64", "arm64"}
  }

  ghost function AliasesOf(e: Evidence): Result<map<string, string>> {
    ReadAliases(e.aliasPairs, ExceptionsOf(e.entries).coordinates, e.docs)
  }

  ghost predicate EvidenceAdmitted(e: Evidence) {
    && e.intact && Recent(e)
    && EntriesAdmitted(e.entries, e.today, e.docs)
    && AliasesOf(e).Ok?
    && ScanAdmitted(e.scan, ExceptionsOf(e.entries).coordinates, AliasesOf(e).value)
    && TargetsAdmitted(e.targets, ExceptionsOf(e.entries))
  }

  ghost predicate TargetsAdmitted(targets: seq<Target>, x: Exceptions) {
    BothArchitectures(targets) && forall i :: 0 <= i < |targets| ==> GraphAdmitted(targets[i], x)
  }

  method CheckEvidence(e: Evidence) returns (r: Result<Report>)
    ensures r.Ok? <==> EvidenceAdmitted(e)
    ensures r.Ok? ==> r.value == Report(|Findings(e.scan)|, |e.aliasPairs|)
  {
    hide EntriesAdmitted, ScanAdmitted, TargetsAdmitted, ExceptionsOf, Recent, ReadAliases, Findings;
    if !e.intact { return Refused("Security policy schema differs"); }
    var x := ReadExceptions(e.entries, e.today, e.docs);
    if x.Refused? { return Refused(x.reason); }
    var aliases := ReadAliases(e.aliasPairs, x.value.coordinates, e.docs);
    if aliases.Refused? { return Refused(aliases.reason); }
    if !Recent(e) { return Refused("Public scan is stale or in the future"); }
    var found := MatchFindings(e.scan, x.value.coordinates, aliases.value);
    if found.Refused? { return Refused(found.reason); }
    var built := CheckTargets(e.targets, x.value);
    if built.Refused? { return Refused(built.reason); }
    AliasesAreTheDuplicate(e.aliasPairs, x.value.coordinates, e.docs);
    DuplicateIds(e.aliasPairs != []);
    return Ok(Report(|found.value|, |aliases.value|));
  }

  method CheckTargets(targets: seq<Target>, x: Exceptions) returns (r: Result<()>)
    ensures r.Ok? <==> TargetsAdmitted(targets, x)
  {
    if !BothArchitectures(targets) { return Refused("Both reviewed Linux architectures required"); }
    for i := 0 to |targets|
      invariant forall k :: 0 <= k < i ==> GraphAdmitted(targets[k], x)
    {
      var ok := CheckTarget(targets[i], x);
      if ok.Refused? { return Refused(ok.reason); }
    }
    return Ok(());
  }

  /** Acceptance of the whole evidence, in terms of the documents alone: for each architecture no chain of
      imports from a selected package meets a package named by either advisory, and the scan reported the
      reviewed advisories and the admitted duplicate, each once. */
  lemma AcceptedEvidence(e: Evidence, t: Target, path: seq<string>)
    requires EvidenceAdmitted(e) && t in e.targets
    requires path != [] && path[0] in Names(t.graph) && ImportChain(path, t.graph)
    ensures forall k :: 0 <= k < |path| ==>
              && path[k] !in PathsFor(e.docs[e.entries[0].advisory], e.entries[0].coordinate.package)
              && path[k] !in PathsFor(e.docs[e.entries[1].advisory], e.entries[1].coordinate.package)
    ensures Distinct(Findings(e.scan)) && (set f | f in Findings(e.scan)) == Expected(e.aliasPairs != [])
  {
    ForbiddenIsUnreachable(t, ExceptionsOf(e.entries), path);
    ForbiddenIsAffected(e.entries, e.today, e.docs);
    AdvisoriesAreOwn(e.entries, e.today, e.docs);
    AliasesAreTheDuplicate(e.aliasPairs, ExceptionsOf(e.entries).coordinates, e.docs);
    FindingsAreTheReviewed(e.scan, ExceptionsOf(e.entries).coordinates, e.aliasPairs != []);
  }

  // ---------------------------------------------------------------- acceptance in the words of the documents

  /** Package path p is affected: the advisory lists it under this Go module. */
  ghost predicate Affects(a: Advisory, module_: string, p: string) {
    exists row :: row in a.affected && row.name == module_ && row.ecosystem == "Go" && p in row.imports
  }

  /** An exception for a Go coordinate that has not expired, whose advisory names exactly the listed packages. */
  ghost predicate Reviewed(e: Entry, today: int, docs: map<string, Advisory>) {
    && e.ecosystem == "Go" && e.coordinate.package != "" && e.coordinate.version != "" && today <= e.expires
    && e.advisory in docs && docs[e.advisory].id == e.advisory && e.affectedPackages != []
    && forall p :: p in e.affectedPackages <==> Affects(docs[e.advisory], e.coordinate.package, p)
  }

  /** One exception for each of the two reviewed advisories, at two coordinates. */
  ghost predicate TwoReviewed(entries: seq<Entry>, today: int, docs: map<string, Advisory>) {
    && |entries| == 2 && Reviewed(entries[0], today, docs) && Reviewed(entries[1], today, docs)
    && entries[0].coordinate != entries[1].coordinate
    && (|| (entries[0].advisory == "GO-2026-5841" && entries[1].advisory == "GO-2026-5932")
        || (entries[0].advisory == "GO-2026-5932" && entries[1].advisory == "GO-2026-5841"))
  }

  /** No alias, or the one reviewed duplicate: each names the other and both the shared CVE, the original stands at its
      coordinate, and the duplicate is about that module alone and names the fixed version. */
  ghost predicate AliasReviewed(pairs: seq<AliasPair>, coordinates: map<Coordinate, string>,
                                docs: map<string, Advisory>) {
    pairs == [] ||
    (&& pairs == [AliasPair("GHSA-259r-337f-4rfw", "GO-2026-5841")]
     && Coordinate("github.com/klauspost/compress", "v1.17.9") in coordinates
     && coordinates[Coordinate("github.com/klauspost/compress", "v1.17.9")] == "GO-2026-5841"
     && "GO-2026-5841" in docs && "GHSA-259r-337f-4rfw" in docs
     && var original, duplicate := docs["GO-2026-5841"], docs["GHSA-259r-337f-4rfw"];
     && duplicate.id == "GHSA-259r-337f-4rfw"
     && "GHSA-259r-337f-4rfw" in original.aliases && "CVE-2026-63209" in original.aliases
     && "CVE-2026-63209" in duplicate.aliases && "1.18.7" in duplicate.fixed && duplicate.affected != []
     && forall row :: row in duplicate.affected ==>
          row.name == "github.com/klauspost/compress" && row.ecosystem == "Go")
  }

  /** A scan of 1 to 4096 coordinates that ended at most five minutes ahead and at most the allowed hours, 1 to 24,
      ago. */
  ghost predicate Fresh(e: Evidence) {
    && 1 <= |e.scan| <= 4096 && |e.scan| == e.queryCount && 1 <= e.maxAgeHours <= 24
    && e.finished - e.now <= 300_000_000 && e.now - e.finished <= e.maxAgeHours * 3_600_000_000
  }

  /** What may be reported at coordinate c: its own advisory or, where that is the original, the admitted duplicate. */
  ghost predicate Qualifies(id: Option<string>, c: Coordinate, coordinates: map<Coordinate, string>, aliased: bool) {
    && c in coordinates && id.Some?
    && (id.value == coordinates[c]
        || (aliased && id.value == "GHSA-259r-337f-4rfw" && coordinates[c] == "GO-2026-5841"))
  }

  /** Distinct Go coordinates, and as findings the two advisories and the admitted duplicate, each once and each where
      it belongs. */
  ghost predicate ScanReviewed(scan: seq<Scanned>, coordinates: map<Coordinate, string>, aliased: bool) {
    && (forall i :: 0 <= i < |scan| ==> scan[i].ecosystem == "Go")
    && (forall i, j :: 0 <= i < j < |scan| ==> scan[i].coordinate != scan[j].coordinate)
    && (forall i, id :: 0 <= i < |scan| && id in scan[i].findings ==>
          Qualifies(id, scan[i].coordinate, coordinates, aliased))
    && Distinct(Findings(scan))
    && forall id :: id in Findings(scan) <==>
         || id == Some("GO-2026-5841") || id == Some("GO-2026-5932") || (aliased && id == Some("GHSA-259r-337f-4rfw"))
  }

  /** A selected package is complete and unreplaced, imports only selected packages, and has exactly its listed sources;
      one of a module with an exception has the listed version. */
  ghost predicate PackageReviewed(p: Package, t: Target, versions: map<string, string>) {
    && !p.incomplete && !p.replaced
    && (forall name :: name in p.imports ==> exists q :: q in t.graph && q.importPath == name)
    && p.importPath in t.files && t.files[p.importPath] == p.sources
    && (p.modulePath.Some? && p.modulePath.value in versions ==>
          p.moduleVersion == Some(versions[p.modulePath.value]))
  }

  /** 1 to 4096 packages, the last one main, none twice and none forbidden, sources for exactly these, and every module
      with an exception among the dependencies and in the graph. */
  ghost predicate GraphReviewed(t: Target, x: Exceptions) {
    && t.delivered && 1 <= |t.graph| <= 4096 && |t.graph| == t.packageCount && t.graph[|t.graph| - 1].name == "main"
    && (forall c :: c in x.coordinates ==> c in t.deps)
    && (forall i, j :: 0 <= i < j < |t.graph| ==> t.graph[i].importPath != t.graph[j].importPath)
    && (forall p :: p in t.graph ==> p.importPath !in x.forbidden && PackageReviewed(p, t, x.versions))
    && (forall name :: name in t.files ==> exists q :: q in t.graph && q.importPath == name)
    && forall m :: m in x.versions ==> exists q :: q in t.graph && q.modulePath == Some(m)
  }

  ghost predicate TargetsReviewed(targets: seq<Target>, x: Exceptions) {
    && |targets| == 2 && GraphReviewed(targets[0], x) && GraphReviewed(targets[1], x)
    && (|| (targets[0].arch == "amd64" && targets[1].arch == "arm64")
        || (targets[0].arch == "arm64" && targets[1].arch == "amd64"))
  }

  /** The two exceptions as tables. */
  ghost predicate Tabled(entries: seq<Entry>, x: Exceptions)
    requires |entries| == 2
  {
    var a, b := entries[0], entries[1];
    && x.coordinates == map[a.coordinate := a.advisory, b.coordinate := b.advisory]
    && (forall p :: p in x.forbidden <==> p in a.affectedPackages || p in b.affectedPackages)
    && x.versions == map[a.coordinate.package := a.coordinate.version, b.coordinate.package := b.coordinate.version]
  }

  ghost predicate Qualified(e: Evidence) {
    && e.intact && Fresh(e) && TwoReviewed(e.entries, e.today, e.docs)
    && exists x :: Tabled(e.entries, x) && AliasReviewed(e.aliasPairs, x.coordinates, e.docs)
                   && ScanReviewed(e.scan, x.coordinates, e.aliasPairs != []) && TargetsReviewed(e.targets, x)
  }

  lemma FreshIsRecent(e: Evidence)
    ensures Recent(e) <==> Fresh(e)
  {
  }

  lemma PathsAreAffected(a: Advisory, module_: string, p: string)
    ensures p in PathsFor(a, module_) <==> Affects(a, module_, p)
  {
    if p in PathsFor(a, module_) {
      var i :| 0 <= i < |a.affected| && a.affected[i].name == module_ && a.affected[i].ecosystem == "Go"
               && p in a.affected[i].imports;
      assert a.affected[i] in a.affected;
    }
  }

  lemma EntryInWords(e: Entry, today: int, docs: map<string, Advisory>)
    ensures EntryAdmitted(e, today, docs) <==> Reviewed(e, today, docs)
  {
    if e.advisory in docs {
      var paths := PathsFor(docs[e.advisory], e.coordinate.package);
      forall p ensures p in paths <==> Affects(docs[e.advisory], e.coordinate.package, p) {
        PathsAreAffected(docs[e.advisory], e.coordinate.package, p);
      }
      hide PathsFor, Affects;
      if e.affectedPackages != [] { assert e.affectedPackages[0] in e.affectedPackages; }
      assert paths == (set p | p in e.affectedPackages) <==> forall p :: p in paths <==> p in e.affectedPackages;
      assert e.affectedPackages == [] ==> (set p | p in e.affectedPackages) == {};
    }
  }

  lemma EntriesInWords(entries: seq<Entry>, today: int, docs: map<string, Advisory>)
    ensures EntriesAdmitted(entries, today, docs) <==> TwoReviewed(entries, today, docs)
  {
    if |entries| == 2 {
      EntryInWords(entries[0], today, docs);
      EntryInWords(entries[1], today, docs);
      hide EntryAdmitted, Reviewed;
      PairInWords(entries[0].advisory, entries[1].advisory);
    }
  }

  lemma PairInWords(a: string, b: string)
    ensures {Some(a), Some(b)} == REVIEWED <==>
            (a == "GO-2026-5841" && b == "GO-2026-5932") || (a == "GO-2026-5932" && b == "GO-2026-5841")
  {
    var first, second := Some("GO-2026-5841"), Some("GO-2026-5932");
    assert first.value[11] != second.value[11];
    if {Some(a), Some(b)} == REVIEWED {
      assert first in {Some(a), Some(b)} && second in {Some(a), Some(b)};
    }
  }

  lemma AliasInWords(pairs: seq<AliasPair>, coordinates: map<Coordinate, string>, docs: map<string, Advisory>)
    ensures ReadAliases(pairs, coordinates, docs).Ok? <==> AliasReviewed(pairs, coordinates, docs)
  {
    if |pairs| == 1 {
      assert pairs == [pairs[0]];
      if DUPLICATE in docs {
        var rows := docs[DUPLICATE].affected;
        assert (forall i :: 0 <= i < |rows| ==> rows[i].name == MODULE && rows[i].ecosystem == "Go") <==>
               (forall row :: row in rows ==> row.name == MODULE && row.ecosystem == "Go");
      }
    }
  }

  lemma TabledExactly(entries: seq<Entry>, x: Exceptions)
    requires |entries| == 2
    ensures Tabled(entries, x) <==> x == ExceptionsOf(entries)
  {
    TwoExceptions(entries);
  }

  lemma {:induction false} InSomeResponse(scan: seq<Scanned>, id: Option<string>)
    ensures id in Findings(scan) <==> exists i :: 0 <= i < |scan| && id in scan[i].findings
  {
    if scan != [] {
      var n := |scan| - 1;
      InSomeResponse(scan[..n], id);
      if i :| 0 <= i < |scan| && id in scan[i].findings {
        if i < n { assert scan[..n][i] == scan[i]; }
      }
    }
  }

  /** A finding that is one of those expected qualifies exactly if it canonically is the advisory of its coordinate. */
  lemma QualifiesIff(id: Option<string>, c: Coordinate, coordinates: map<Coordinate, string>, aliased: bool)
    requires OwnAdvisories(coordinates) && id in Expected(aliased)
    ensures Canonical(id, DuplicateTable(aliased)) == AdvisoryAt(c, coordinates) <==>
            Qualifies(id, c, coordinates, aliased)
  {
    if c in coordinates {
      assert Some(coordinates[c]) in Listed(coordinates);
      NotTheDuplicate(coordinates[c]);
    }
  }

  lemma ExpectedInWords(found: seq<Option<string>>, aliased: bool)
    ensures (set f | f in found) == Expected(aliased) <==> forall id :: id in found <==> id in Expected(aliased)
    ensures forall id :: id in Expected(aliased) <==>
              || id == Some("GO-2026-5841") || id == Some("GO-2026-5932")
              || (aliased && id == Some("GHSA-259r-337f-4rfw"))
  {
    assert forall id :: id in (set f | f in found) <==> id in found;
  }

  lemma ScanInWords(scan: seq<Scanned>, coordinates: map<Coordinate, string>, aliased: bool)
    requires OwnAdvisories(coordinates)
    ensures ScanAdmitted(scan, coordinates, DuplicateTable(aliased)) <==> ScanReviewed(scan, coordinates, aliased)
  {
    hide Matches, Qualifies, Canonicals, Findings, Distinct, OwnAdvisories, Retained, Expected;
    ExpectedInWords(Findings(scan), aliased);
    if ScanAdmitted(scan, coordinates, DuplicateTable(aliased)) { FindingsAreTheReviewed(scan, coordinates, aliased); }
    if forall id :: id in Findings(scan) <==> id in Expected(aliased) {
      forall i | 0 <= i < |scan|
        ensures Matches(scan[i], coordinates, DuplicateTable(aliased)) <==>
                && scan[i].ecosystem == "Go"
                && forall id :: id in scan[i].findings ==> Qualifies(id, scan[i].coordinate, coordinates, aliased)
      {
        ResponseInWords(scan, i, coordinates, aliased);
      }
      if ScanReviewed(scan, coordinates, aliased) { RawComparisonSuffices(scan, coordinates, aliased); }
    }
  }

  lemma ResponseInWords(scan: seq<Scanned>, i: nat, coordinates: map<Coordinate, string>, aliased: bool)
    requires OwnAdvisories(coordinates) && i < |scan|
    requires forall id :: id in Findings(scan) <==> id in Expected(aliased)
    ensures Matches(scan[i], coordinates, DuplicateTable(aliased)) <==>
            && scan[i].ecosystem == "Go"
            && forall id :: id in scan[i].findings ==> Qualifies(id, scan[i].coordinate, coordinates, aliased)
  {
    var found := scan[i].findings;
    forall k | 0 <= k < |found|
      ensures Canonical(found[k], DuplicateTable(aliased)) == AdvisoryAt(scan[i].coordinate, coordinates) <==>
              Qualifies(found[k], scan[i].coordinate, coordinates, aliased)
    {
      assert found[k] in scan[i].findings;
      InSomeResponse(scan, found[k]);
      QualifiesIff(found[k], scan[i].coordinate, coordinates, aliased);
    }
    hide Canonical, AdvisoryAt, Qualifies, OwnAdvisories, Findings, Expected;
  }

  lemma NamesInWords(graph: seq<Package>, name: string)
    ensures name in Names(graph) <==> exists q :: q in graph && q.importPath == name
  {
    if name in Names(graph) {
      var i :| 0 <= i < |graph| && graph[i].importPath == name;
      assert graph[i] in graph;
    }
  }

  lemma PackageInWords(p: Package, t: Target, x: Exceptions)
    ensures PackageAdmitted(p, Names(t.graph), t, x) <==> PackageReviewed(p, t, x.versions)
  {
    forall name ensures name in Names(t.graph) <==> exists q :: q in t.graph && q.importPath == name {
      NamesInWords(t.graph, name);
    }
    hide Names;
    assert (forall k :: 0 <= k < |p.imports| ==> p.imports[k] in Names(t.graph)) <==>
           (forall name :: name in p.imports ==> name in Names(t.graph));
  }

  lemma ProvidedInWords(m: string, graph: seq<Package>)
    ensures Provided(m, graph, |graph|) <==> exists q :: q in graph && q.modulePath == Some(m)
  {
    if Provided(m, graph, |graph|) {
      var k :| 0 <= k < |graph| && graph[k].modulePath == Some(m);
      assert graph[k] in graph;
    }
  }

  lemma GraphInWords(t: Target, x: Exceptions)
    ensures GraphAdmitted(t, x) <==> GraphReviewed(t, x)
  {
    var names := Names(t.graph);
    forall p | p in t.graph
      ensures p.importPath in names && (PackageAdmitted(p, names, t, x) <==> PackageReviewed(p, t, x.versions))
    {
      NamesInWords(t.graph, p.importPath);
      PackageInWords(p, t, x);
    }
    forall name ensures name in names <==> exists q :: q in t.graph && q.importPath == name {
      NamesInWords(t.graph, name);
    }
    forall m ensures Provided(m, t.graph, |t.graph|) <==> exists q :: q in t.graph && q.modulePath == Some(m) {
      ProvidedInWords(m, t.graph);
    }
    hide Names, Provided, PackageAdmitted;
    assert forall p :: p in t.graph && PackageReviewed(p, t, x.versions) ==> p.importPath in t.files;
    hide PackageReviewed;
  }

  lemma TargetsInWords(targets: seq<Target>, x: Exceptions)
    ensures TargetsAdmitted(targets, x) <==> TargetsReviewed(targets, x)
  {
    if |targets| == 2 {
      GraphInWords(targets[0], x);
      GraphInWords(targets[1], x);
      hide GraphAdmitted, GraphReviewed;
      BothInWords(targets[0].arch, targets[1].arch);
    }
  }

  lemma BothInWords(a: string, b: string)
    ensures {a, b} == {"amd64", "arm64"} <==> (a == "amd64" && b == "arm64") || (a == "arm64" && b == "amd64")
  {
    assert "amd64"[1] != "arm64"[1];
    if {a, b} == {"amd64", "arm64"} {
      assert "amd64" in {a, b} && "arm64" in {a, b};
    }
  }

  lemma EvidenceInWords(e: Evidence)
    ensures EvidenceAdmitted(e) <==> Qualified(e)
  {
    FreshIsRecent(e);
    EntriesInWords(e.entries, e.today, e.docs);
    hide Recent, Fresh, TwoReviewed;
    if EntriesAdmitted(e.entries, e.today, e.docs) {
      var x := ExceptionsOf(e.entries);
      RestInWords(e, x);
      forall other ensures Tabled(e.entries, other) <==> other == x { TabledExactly(e.entries, other); }
      hide EntriesAdmitted, ScanAdmitted, ScanReviewed, TargetsAdmitted, TargetsReviewed, ReadAliases, AliasReviewed;
      hide Tabled, ExceptionsOf;
    }
  }

  /** The rest of the evidence, for the exceptions as tables. */
  lemma RestInWords(e: Evidence, x: Exceptions)
    requires EntriesAdmitted(e.entries, e.today, e.docs) && x == ExceptionsOf(e.entries)
    ensures AliasesOf(e).Ok? <==> AliasReviewed(e.aliasPairs, x.coordinates, e.docs)
    ensures AliasesOf(e).Ok? ==>
              (ScanAdmitted(e.scan, x.coordinates, AliasesOf(e).value) <==>
               ScanReviewed(e.scan, x.coordinates, e.aliasPairs != []))
    ensures TargetsAdmitted(e.targets, x) <==> TargetsReviewed(e.targets, x)
  {
    AdvisoriesAreOwn(e.entries, e.today, e.docs);
    hide EntriesAdmitted, ScanAdmitted, ScanReviewed, TargetsAdmitted, TargetsReviewed, ReadAliases, AliasReviewed;
    hide ExceptionsOf, OwnAdvisories;
    AliasInWords(e.aliasPairs, x.coordinates, e.docs);
    if AliasesOf(e).Ok? { AliasesAreTheDuplicate(e.aliasPairs, x.coordinates, e.docs); }
    ScanInWords(e.scan, x.coordinates, e.aliasPairs != []);
    TargetsInWords(e.targets, x);
  }
}
