/** Wrapping a flat bundle: upstream dependencies move into one ustar archive, everything else is copied, and
    an outer manifest is written. File metadata and digests come from the environment. */
module BundleTransport {
  import opened AssetNames
  import opened Collections
  import opened Ustar
  import opened Wrappers

  /** `guarded` stands for a regular file with one link that no other user may write. */
  datatype File = File(content: seq<byte>, guarded: bool)

  datatype Row = Row(sha256: string, bytes: nat)

  /** The output directory without its manifest, and the manifest. */
  datatype Output = Output(files: map<string, seq<byte>>, sums: map<string, string>)

  type Digest = seq<byte> -> string

  const MANIFEST := "SHA256SUMS"
  const ARCHIVE := "native-install.tar"
  const DESCRIPTOR := "bundle-transport.json"

  function Reserved(): set<string> { {MANIFEST, "SHA256SUMS.asc", DESCRIPTOR, ARCHIVE} }

  const GIB := 1073741824

  // ---------------------------------------------------------------- the flat manifest

  predicate Parses(line: string) {
    |line| >= 67 && IsSha(line[..64]) && line[64] == ' ' && line[65] == ' ' && IsName(line[66..])
  }

  function NameOf(line: string): string
    requires Parses(line)
  {
    line[66..]
  }

  function LowerChar(c: char): char {
    if 'A' <= c <= 'Z' then c + 32 as char else c
  }

  function Lower(s: string): string {
    seq(|s|, i requires 0 <= i < |s| => LowerChar(s[i]))
  }

  predicate FileOk(f: File, limit: nat) {
    f.guarded && 0 < |f.content| <= limit
  }

  predicate LineOk(line: string, files: map<string, File>, sha: Digest) {
    && Parses(line) && NameOf(line) !in Reserved() && NameOf(line) in files
    && FileOk(files[NameOf(line)], 536870912) && sha(files[NameOf(line)].content) == line[..64]
  }

  ghost predicate EntriesOk(lines: seq<string>, files: map<string, File>, sha: Digest) {
    && (forall i :: 0 <= i < |lines| ==> LineOk(lines[i], files, sha))
    && forall i, j :: 0 <= i < j < |lines| ==> Lower(NameOf(lines[i])) != Lower(NameOf(lines[j]))
  }

  function Names(lines: seq<string>): (r: seq<string>)
    requires forall i :: 0 <= i < |lines| ==> Parses(lines[i])
    ensures |r| == |lines|
  {
    seq(|lines|, i requires 0 <= i < |lines| => NameOf(lines[i]))
  }

  function RowOf(f: File, sha: Digest): Row {
    Row(sha(f.content), |f.content|)
  }

  ghost predicate Table(names: seq<string>, entries: map<string, Row>, files: map<string, File>, sha: Digest) {
    && entries.Keys == (set n | n in names) && entries.Keys <= files.Keys
    && (forall n :: n in names ==> entries[n] == RowOf(files[n], sha))
  }

  method ReadEntries(lines: seq<string>, files: map<string, File>, sha: Digest)
    returns (ok: bool, names: seq<string>, entries: map<string, Row>)
    ensures ok <==> EntriesOk(lines, files, sha)
    ensures ok ==> names == Names(lines) && Table(names, entries, files, sha)
  {
    hide IsSha, IsName, Lower, FileOk, RowOf;
    names, entries := [], map[];
    var folded: set<string> := {};
    for i := 0 to |lines|
      invariant EntriesOk(lines[..i], files, sha) && names == Names(lines[..i]) && Table(names, entries, files, sha)
      invariant folded == set k | 0 <= k < i :: Lower(NameOf(lines[k]))
    {
      var line := lines[i];
      assert EntriesOk(lines, files, sha) ==> LineOk(line, files, sha);
      if !Parses(line) { return false, names, entries; }
      var name := NameOf(line);
      if name in entries || Lower(name) in folded || name in Reserved() {
        Repeated(lines, i, entries, folded, files, sha);
        return false, names, entries;
      }
      if !LineOk(line, files, sha) { return false, names, entries; }
      EntryAdded(lines[..i], line, entries, files, sha);
      assert lines[..i + 1] == lines[..i] + [line];
      names, entries := names + [name], entries[name := RowOf(files[name], sha)];
      folded := folded + {Lower(name)};
    }
    assert lines[..|lines|] == lines;
    ok := true;
  }

  lemma Repeated(lines: seq<string>, i: nat, entries: map<string, Row>, folded: set<string>, files: map<string, File>,
                 sha: Digest)
    requires i < |lines| && Parses(lines[i]) && EntriesOk(lines[..i], files, sha)
    requires Table(Names(lines[..i]), entries, files, sha)
    requires forall k :: 0 <= k < i ==> Parses(lines[k])
    requires folded == set k | 0 <= k < i :: Lower(NameOf(lines[k]))
    requires NameOf(lines[i]) in entries || Lower(NameOf(lines[i])) in folded || NameOf(lines[i]) in Reserved()
    ensures !EntriesOk(lines, files, sha)
  {
    if NameOf(lines[i]) in entries {
      var names := Names(lines[..i]);
      var k :| 0 <= k < |names| && names[k] == NameOf(lines[i]);
      assert lines[..i][k] == lines[k];
    } else if Lower(NameOf(lines[i])) in folded {
      var k :| 0 <= k < i && Lower(NameOf(lines[k])) == Lower(NameOf(lines[i]));
    }
  }

  lemma EntryAdded(front: seq<string>, line: string, entries: map<string, Row>, files: map<string, File>, sha: Digest)
    requires EntriesOk(front, files, sha) && LineOk(line, files, sha) && Table(Names(front), entries, files, sha)
    requires forall k :: 0 <= k < |front| ==> Lower(NameOf(front[k])) != Lower(NameOf(line))
    ensures EntriesOk(front + [line], files, sha) && Names(front + [line]) == Names(front) + [NameOf(line)]
    ensures Table(Names(front + [line]), entries[NameOf(line) := RowOf(files[NameOf(line)], sha)], files, sha)
  {
    hide IsSha, IsName, Lower, FileOk, RowOf;
    var all := front + [line];
    assert forall i :: 0 <= i < |front| ==> all[i] == front[i];
    assert Names(all) == Names(front) + [NameOf(line)];
    assert forall n :: n in Names(all) <==> n in Names(front) || n == NameOf(line);
  }

  // ---------------------------------------------------------------- the dependency bank

  predicate IsDependency(name: string) {
    |name| == 72 && name[..4] == "apk-" && IsSha(name[4..68]) && name[68..] == ".apk"
  }

  function Archived(names: seq<string>): seq<string> {
    if names == [] then []
    else (if IsDependency(names[0]) then [names[0]] else []) + Archived(names[1..])
  }

  function Direct(names: seq<string>): seq<string> {
    if names == [] then []
    else (if IsDependency(names[0]) then [] else [names[0]]) + Direct(names[1..])
  }

  function SizesOf(names: seq<string>, entries: map<string, Row>): (r: seq<nat>)
    requires forall n :: n in names ==> n in entries
    ensures |r| == |names|
  {
    seq(|names|, i requires 0 <= i < |names| => entries[names[i]].bytes)
  }

  function Sum(sizes: seq<nat>): nat {
    if sizes == [] then 0 else sizes[0] + Sum(sizes[1..])
  }

  lemma {:induction false} Partition(names: seq<string>)
    ensures |Archived(names)| + |Direct(names)| == |names|
    ensures forall n :: n in Archived(names) <==> n in names && IsDependency(n)
    ensures forall n :: n in Direct(names) <==> n in names && !IsDependency(n)
  {
    if names != [] {
      Partition(names[1..]);
      assert names == [names[0]] + names[1..];
    }
  }

  predicate BankOk(bank: seq<nat>) {
    1 <= |bank| <= 1024 && (forall i :: 0 <= i < |bank| ==> bank[i] <= 134217728) && Sum(bank) <= 2147483648
  }

  /** All limits before anything is written; `free` is the space on the output disk. */
  predicate Fits(names: seq<string>, entries: map<string, Row>, free: nat)
    requires forall n :: n in names ==> n in entries
  {
    Partition(names);
    var bank := SizesOf(Archived(names), entries);
    && BankOk(bank) && TarBytes(bank) <= 536870912
    && |names| - |Archived(names)| + 3 < 200
    && free >= 10 * GIB + TarBytes(bank) + Sum(SizesOf(Direct(names), entries))
  }

  // ---------------------------------------------------------------- the archive

  /** Members are named by the digest of the file name. */
  function Label(name: string, sha: Digest): seq<byte> {
    Ascii("f-" + sha(Ascii(name)))
  }

  function MemberOf(name: string, files: map<string, File>, sha: Digest): Member
    requires name in files
  {
    Member(Label(name, sha), files[name].content)
  }

  function MembersOf(order: seq<string>, files: map<string, File>, sha: Digest): (r: seq<Member>)
    requires forall n :: n in order ==> n in files
    ensures |r| == |order|
  {
    seq(|order|, i requires 0 <= i < |order| => MemberOf(order[i], files, sha))
  }

  lemma LabelIsShort(name: string, sha: Digest)
    requires forall x :: IsSha(sha(x))
    ensures |Label(name, sha)| == 66 && 0 !in Label(name, sha)
  {
    var text := "f-" + sha(Ascii(name));
    assert IsSha(sha(Ascii(name)));
    assert forall i :: 0 <= i < |text| ==> 0 < (text[i] as int) % 256 by {
      forall i | 0 <= i < |text| ensures 0 < (text[i] as int) % 256 {
        assert text[i] == 'f' || text[i] == '-' || 'a' <= text[i] <= 'f' || '0' <= text[i] <= '9';
      }
    }
  }

  lemma MembersAreStorable(order: seq<string>, files: map<string, File>, sha: Digest)
    requires forall x :: IsSha(sha(x))
    requires forall n :: n in order ==> n in files && |files[n].content| <= 134217728
    ensures AllStorable(MembersOf(order, files, sha))
  {
    ElevenDigits();
    forall i | 0 <= i < |order| ensures Storable(MembersOf(order, files, sha)[i]) {
      LabelIsShort(order[i], sha);
    }
  }

  // ---------------------------------------------------------------- archive order

  predicate Precedes(a: string, b: string) {
    if b == [] then false
    else if a == [] then true
    else a[0] < b[0] || (a[0] == b[0] && Precedes(a[1..], b[1..]))
  }

  function Insert(x: string, s: seq<string>): (r: seq<string>)
    ensures multiset(r) == multiset(s) + multiset{x}
    ensures |r| == |s| + 1 && (r[0] == x || (s != [] && r[0] == s[0]))
  {
    if s == [] || !Precedes(s[0], x) then [x] + s
    else
      assert s == [s[0]] + s[1..];
      [s[0]] + Insert(x, s[1..])
  }

  function Sorted(names: seq<string>): (r: seq<string>)
    ensures multiset(r) == multiset(names)
    ensures forall n :: n in r <==> n in names
  {
    if names == [] then []
    else
      assert names == [names[0]] + names[1..];
      var r := Insert(names[0], Sorted(names[1..]));
      assert forall n :: n in r <==> n in multiset(r);
      assert forall n :: n in names <==> n in multiset(names);
      r
  }

  ghost predicate InOrder(s: seq<string>) {
    forall i :: 0 <= i < |s| - 1 ==> !Precedes(s[i + 1], s[i])
  }

  lemma {:induction false} Asymmetric(a: string, b: string)
    requires Precedes(a, b)
    ensures !Precedes(b, a)
  {
    if a != [] && b != [] && a[0] == b[0] { Asymmetric(a[1..], b[1..]); }
  }

  lemma {:induction false} InsertKeepsOrder(x: string, s: seq<string>)
    requires InOrder(s)
    ensures InOrder(Insert(x, s))
  {
    if s != [] && Precedes(s[0], x) {
      Asymmetric(s[0], x);
      InsertKeepsOrder(x, s[1..]);
    }
  }

  lemma {:induction false} SortedIsInOrder(names: seq<string>)
    ensures InOrder(Sorted(names))
  {
    if names != [] {
      SortedIsInOrder(names[1..]);
      InsertKeepsOrder(names[0], Sorted(names[1..]));
    }
  }

  lemma {:induction false} InsertTotal(x: string, s: seq<string>, entries: map<string, Row>)
    requires x in entries && forall n :: n in s ==> n in entries
    ensures forall n :: n in Insert(x, s) ==> n in entries
    ensures TotalOf(SizesOf(Insert(x, s), entries)) == Occupied(entries[x].bytes) + TotalOf(SizesOf(s, entries))
  {
    var r := Insert(x, s);
    if s == [] || !Precedes(s[0], x) {
      assert SizesOf(r, entries)[1..] == SizesOf(s, entries);
    } else {
      InsertTotal(x, s[1..], entries);
      assert SizesOf(r, entries)[1..] == SizesOf(Insert(x, s[1..]), entries);
      assert SizesOf(s, entries)[1..] == SizesOf(s[1..], entries);
    }
  }

  /** The length formula over the manifest order is the length in archive order. */
  lemma {:induction false} SortedTotal(names: seq<string>, entries: map<string, Row>)
    requires forall n :: n in names ==> n in entries
    ensures TotalOf(SizesOf(Sorted(names), entries)) == TotalOf(SizesOf(names, entries))
  {
    hide Insert, Occupied;
    if names != [] {
      SortedTotal(names[1..], entries);
      InsertTotal(names[0], Sorted(names[1..]), entries);
      assert SizesOf(names, entries)[1..] == SizesOf(names[1..], entries);
    }
  }

  // ---------------------------------------------------------------- the build

  /** `tools` are the digests of the helper files beside the builder, `free` the space on the output disk. */
  datatype Bundle = Bundle(files: map<string, File>, lines: seq<string>, expected: string, tools: map<string, string>,
                           free: nat)

  predicate ManifestOk(b: Bundle, sha: Digest) {
    && IsSha(b.expected) && MANIFEST in b.files && FileOk(b.files[MANIFEST], 1048576)
    && sha(b.files[MANIFEST].content) == b.expected
  }

  predicate ToolsOk(b: Bundle, entries: map<string, Row>) {
    forall t :: t in b.tools ==> t in entries && entries[t].sha256 == b.tools[t]
  }

  ghost predicate Admitted(b: Bundle, sha: Digest) {
    && ManifestOk(b, sha) && EntriesOk(b.lines, b.files, sha)
    && b.files.Keys == (set n | n in Names(b.lines)) + {MANIFEST}
    && var entries := EntriesOf(b, sha);
       ToolsOk(b, entries) && Fits(Names(b.lines), entries, b.free)
  }

  /** The table of a readable manifest. */
  ghost function EntriesOf(b: Bundle, sha: Digest): (r: map<string, Row>)
    requires EntriesOk(b.lines, b.files, sha)
    ensures Table(Names(b.lines), r, b.files, sha)
  {
    map n | n in Names(b.lines) :: RowOf(b.files[n], sha)
  }

  method CopyDirect(names: seq<string>, files: map<string, File>) returns (out: map<string, seq<byte>>)
    requires forall n :: n in names ==> n in files
    ensures out.Keys == set n | n in names && !IsDependency(n)
    ensures forall n :: n in out ==> out[n] == files[n].content
  {
    out := map[];
    for i := 0 to |names|
      invariant out.Keys == set n | n in names[..i] && !IsDependency(n)
      invariant forall n :: n in out ==> out[n] == files[n].content
    {
      assert names[..i + 1] == names[..i] + [names[i]];
      if !IsDependency(names[i]) { out := out[names[i] := files[names[i]].content]; }
    }
    assert names[..|names|] == names;
  }

  /** The archived members of an admitted bundle, in archive order. */
  ghost function Bank(b: Bundle, sha: Digest): (r: seq<Member>)
    requires forall x :: IsSha(sha(x))
    requires Admitted(b, sha)
    ensures AllStorable(r)
  {
    var order := Sorted(Archived(Names(b.lines)));
    BankIsStorable(b, sha);
    MembersOf(order, b.files, sha)
  }

  lemma BankIsStorable(b: Bundle, sha: Digest)
    requires forall x :: IsSha(sha(x))
    requires Admitted(b, sha)
    ensures var order := Sorted(Archived(Names(b.lines)));
            && (forall n :: n in order ==> n in b.files && n in EntriesOf(b, sha))
            && AllStorable(MembersOf(order, b.files, sha))
            && Sizes(MembersOf(order, b.files, sha)) == SizesOf(order, EntriesOf(b, sha))
  {
    hide Sorted, Label, TarBytes, IsDependency, Archived, Parses, ToolsOk;
    var names, entries := Names(b.lines), EntriesOf(b, sha);
    var bank := Archived(names);
    Partition(names);
    forall n | n in bank ensures n in b.files && |b.files[n].content| <= 134217728 {
      var i :| 0 <= i < |bank| && bank[i] == n;
      assert SizesOf(bank, entries)[i] <= 134217728;
    }
    MembersAreStorable(Sorted(bank), b.files, sha);
  }

  /** The files and the manifest of an output, for given archive and descriptor bytes. */
  ghost predicate Placed(names: seq<string>, files: map<string, File>, sha: Digest, archive: seq<byte>,
                         descriptor: seq<byte>, out: Output)
    requires forall n :: n in names ==> n in files
  {
    && out.files.Keys == (set n | n in names && !IsDependency(n)) + {ARCHIVE, DESCRIPTOR}
    && (forall n :: n in names && !IsDependency(n) ==> out.files[n] == files[n].content)
    && out.files[ARCHIVE] == archive && out.files[DESCRIPTOR] == descriptor
    && out.sums.Keys == (set n | n in names) + {ARCHIVE, DESCRIPTOR}
    && (forall n :: n in names ==> out.sums[n] == sha(files[n].content))
    && out.sums[ARCHIVE] == sha(archive) && out.sums[DESCRIPTOR] == sha(descriptor)
  }

  ghost predicate Wraps(b: Bundle, sha: Digest, descriptor: seq<byte>, out: Output)
    requires forall x :: IsSha(sha(x))
    requires Admitted(b, sha)
  {
    Placed(Names(b.lines), b.files, sha, Archive(Bank(b, sha)), descriptor, out)
  }

  method CheckSource(b: Bundle, sha: Digest) returns (r: Result<(seq<string>, map<string, Row>)>)
    ensures r.Ok? <==> Admitted(b, sha)
    ensures r.Ok? ==> r.value == (Names(b.lines), EntriesOf(b, sha))
  {
    if !ManifestOk(b, sha) { return Refused("Flat manifest digest mismatch"); }
    var ok, names, entries := ReadEntries(b.lines, b.files, sha);
    if !ok { return Refused("Unique safe flat source entries required"); }
    assert entries == EntriesOf(b, sha);
    if b.files.Keys != (set n | n in names) + {MANIFEST} {
      return Refused("Exact normal unsigned flat bundle required");
    }
    if !ToolsOk(b, entries) { return Refused("Installer bytes must already pass normal bundle assembly"); }
    if !Fits(names, entries, b.free) { return Refused("Bounded upstream dependency bank required"); }
    return Ok((names, entries));
  }

  method WriteArchive(b: Bundle, sha: Digest, names: seq<string>, entries: map<string, Row>)
    returns (ok: bool, archive: seq<byte>)
    requires forall x :: IsSha(sha(x))
    requires Admitted(b, sha) && names == Names(b.lines) && entries == EntriesOf(b, sha)
    ensures ok && archive == Archive(Bank(b, sha))
  {
    BankIsStorable(b, sha);
    var order := Sorted(Archived(names));
    archive := Write(MembersOf(order, b.files, sha));
    LengthCheckHolds(b, sha);
    ok := |archive| == TarBytes(SizesOf(Archived(names), entries));
  }

  method WriteManifest(names: seq<string>, entries: map<string, Row>, archive: seq<byte>, descriptor: seq<byte>,
                       sha: Digest) returns (sums: map<string, string>)
    requires entries.Keys == (set n | n in names) && ARCHIVE !in names && DESCRIPTOR !in names
    ensures sums.Keys == (set n | n in names) + {ARCHIVE, DESCRIPTOR}
    ensures forall n :: n in names ==> sums[n] == entries[n].sha256
    ensures sums[ARCHIVE] == sha(archive) && sums[DESCRIPTOR] == sha(descriptor)
  {
    sums := map n | n in entries :: entries[n].sha256;
    assert |ARCHIVE| == 18 && |DESCRIPTOR| == 21;
    sums := sums[ARCHIVE := sha(archive)][DESCRIPTOR := sha(descriptor)];
  }

  method Build(b: Bundle, sha: Digest, descriptor: seq<byte>) returns (r: Result<Output>)
    requires forall x :: IsSha(sha(x))
    ensures r.Ok? <==> Admitted(b, sha) && |descriptor| <= 1048576
    ensures r.Ok? ==> Wraps(b, sha, descriptor, r.value)
  {
    var source := CheckSource(b, sha);
    if source.Refused? { return Refused(source.reason); }
    var (names, entries) := source.value;
    var exact, archive := WriteArchive(b, sha, names, entries);
    if !exact { return Refused("Canonical USTAR padded length mismatch"); }
    if |descriptor| > 1048576 { return Refused("Bounded transport descriptor required"); }
    NewNamesAreFree(b, sha);
    var files := CopyDirect(names, b.files);
    var sums := WriteManifest(names, entries, archive, descriptor, sha);
    r := Ok(Output(files[ARCHIVE := archive][DESCRIPTOR := descriptor], sums));
  }

  lemma NewNamesAreFree(b: Bundle, sha: Digest)
    requires EntriesOk(b.lines, b.files, sha)
    ensures ARCHIVE !in Names(b.lines) && DESCRIPTOR !in Names(b.lines) && MANIFEST !in Names(b.lines)
    ensures ARCHIVE != DESCRIPTOR && MANIFEST != ARCHIVE && MANIFEST != DESCRIPTOR
  {
    var names := Names(b.lines);
    forall n | n in names ensures n !in Reserved() {
      var i :| 0 <= i < |names| && names[i] == n;
      assert LineOk(b.lines[i], b.files, sha);
    }
    assert |ARCHIVE| == 18 && |DESCRIPTOR| == 21 && |MANIFEST| == 10;
  }

  /** The length measured after writing is always the one computed before, so that check never refuses. */
  lemma LengthCheckHolds(b: Bundle, sha: Digest)
    requires forall x :: IsSha(sha(x))
    requires Admitted(b, sha)
    ensures forall n :: n in Archived(Names(b.lines)) ==> n in EntriesOf(b, sha)
    ensures |Archive(Bank(b, sha))| == TarBytes(SizesOf(Archived(Names(b.lines)), EntriesOf(b, sha))) <= 536870912
  {
    Partition(Names(b.lines));
    BankIsStorable(b, sha);
    ArchiveLength(Archived(Names(b.lines)), EntriesOf(b, sha), Bank(b, sha));
  }

  lemma ArchiveLength(bank: seq<string>, entries: map<string, Row>, ms: seq<Member>)
    requires forall n :: n in bank ==> n in entries
    requires AllStorable(ms) && Sizes(ms) == SizesOf(Sorted(bank), entries)
    ensures |Archive(ms)| == TarBytes(SizesOf(bank, entries))
  {
    hide *;
    LengthIsClosed(ms);
    SortedTotal(bank, entries);
    SameTotal(SizesOf(Sorted(bank), entries), SizesOf(bank, entries));
  }

  // ---------------------------------------------------------------- admission in the words of the manifest

  /** A line of the manifest is a digest, two spaces and a name. */
  lemma LineIsWritten(line: string)
    ensures Parses(line) <==> exists digest, name :: IsSha(digest) && IsName(name) && line == digest + "  " + name
    ensures forall digest, name {:trigger digest + "  " + name} ::
              IsSha(digest) && IsName(name) && line == digest + "  " + name ==>
                line[..64] == digest && NameOf(line) == name
  {
    if Parses(line) {
      assert line == line[..64] + "  " + line[66..];
    }
    forall digest, name {:trigger digest + "  " + name} | IsSha(digest) && IsName(name) && line == digest + "  " + name
      ensures Parses(line) && line[..64] == digest && NameOf(line) == name
    {
      assert line[66..] == name;
    }
  }

  /** A dependency is named after a digest. */
  lemma DependencyIsNamed(name: string)
    ensures IsDependency(name) <==> exists digest :: IsSha(digest) && name == "apk-" + digest + ".apk"
  {
    if IsDependency(name) {
      assert name == "apk-" + name[4..68] + ".apk";
    }
    forall digest {:trigger "apk-" + digest} | IsSha(digest) && name == "apk-" + digest + ".apk"
      ensures IsDependency(name)
    {
      assert name[4..68] == digest && name[68..] == ".apk";
    }
  }

  lemma LowerInLetters(c: char)
    ensures forall k :: 0 <= k < 26 ==> LowerChar(CAPITALS[k]) == SMALL[k]
    ensures c !in CAPITALS ==> LowerChar(c) == c
  {
    CapitalIsListed(c);
  }

  /** Archive order is that of the characters: the first difference decides, and a prefix comes first. */
  lemma {:induction false} PrecedesIsLexicographic(a: string, b: string)
    ensures Precedes(a, b) <==> exists k: nat :: DiffersAt(a, b, k)
  {
    if Precedes(a, b) {
      if a != [] && a[0] == b[0] {
        PrecedesIsLexicographic(a[1..], b[1..]);
        var k: nat :| DiffersAt(a[1..], b[1..], k);
        assert a[..k + 1] == [a[0]] + a[1..][..k] && b[..k + 1] == [b[0]] + b[1..][..k];
        assert DiffersAt(a, b, k + 1);
      } else {
        assert DiffersAt(a, b, 0);
      }
    }
    if k: nat :| DiffersAt(a, b, k) {
      if k > 0 {
        TailDiffers(a, b, k);
        PrecedesIsLexicographic(a[1..], b[1..]);
      }
    }
  }

  /** The two agree up to k, where the first ends or has the smaller character. */
  ghost predicate DiffersAt(a: string, b: string, k: nat) {
    k <= |a| && k < |b| && a[..k] == b[..k] && (k == |a| || a[k] < b[k])
  }

  lemma TailDiffers(a: string, b: string, k: nat)
    requires DiffersAt(a, b, k) && k > 0
    ensures a[0] == b[0] && DiffersAt(a[1..], b[1..], k - 1)
  {
    assert a[0] == a[..k][0] && b[0] == b[..k][0];
    assert a[1..][..k - 1] == a[..k][1..] && b[1..][..k - 1] == b[..k][1..];
  }

  /** The bytes of the archived files, or of the others. */
  function Weight(names: seq<string>, files: map<string, File>, archived: bool): nat
    requires forall n :: n in names ==> n in files
  {
    if names == [] then 0
    else
      (if IsDependency(names[0]) == archived then |files[names[0]].content| else 0)
      + Weight(names[1..], files, archived)
  }

  ghost predicate Listed(b: Bundle, sha: Digest, line: string) {
    && Parses(line)
    && NameOf(line) !in {"SHA256SUMS", "SHA256SUMS.asc", "bundle-transport.json", "native-install.tar"}
    && NameOf(line) in b.files && b.files[NameOf(line)].guarded
    && 1 <= |b.files[NameOf(line)].content| <= 536870912 && sha(b.files[NameOf(line)].content) == line[..64]
  }

  /** The limits: 1 to 1024 dependencies of at most 128 MiB and 2 GiB together, an archive of at most 512 MiB, fewer
      than 200 files, and 10 GiB to spare on the output disk. */
  ghost predicate Bounded(b: Bundle, names: seq<string>, archive: nat)
    requires forall n :: n in names ==> n in b.files
  {
    var bank := set n | n in names && IsDependency(n);
    && 1 <= |bank| <= 1024 && (forall n :: n in bank ==> |b.files[n].content| <= 134217728)
    && Weight(names, b.files, true) <= 2147483648 && archive <= 536870912
    && |names| - |bank| + 3 < 200 && b.free >= 10737418240 + archive + Weight(names, b.files, false)
  }

  /** A bundle that is admitted, in the words of its manifest. */
  ghost predicate Acceptable(b: Bundle, sha: Digest) {
    && IsSha(b.expected) && "SHA256SUMS" in b.files && b.files["SHA256SUMS"].guarded
    && 1 <= |b.files["SHA256SUMS"].content| <= 1048576 && sha(b.files["SHA256SUMS"].content) == b.expected
    && (forall i :: 0 <= i < |b.lines| ==> Listed(b, sha, b.lines[i]))
    && (forall i, j :: 0 <= i < j < |b.lines| ==> Lower(NameOf(b.lines[i])) != Lower(NameOf(b.lines[j])))
    && var names := Names(b.lines);
    && (forall n :: n in names <==> n in b.files && n != "SHA256SUMS")
    && (forall t :: t in b.tools ==> exists i :: 0 <= i < |b.lines| && names[i] == t && b.lines[i][..64] == b.tools[t])
    && exists sizes :: SizesAre(sizes, names, b.files) && Bounded(b, names, TarBytes(sizes))
  }

  /** The sizes of the archived files, in the order of the manifest. */
  ghost predicate SizesAre(sizes: seq<nat>, names: seq<string>, files: map<string, File>)
    requires forall n :: n in names ==> n in files
  {
    |sizes| == |Archived(names)| && forall i :: 0 <= i < |sizes| ==>
      Archived(names)[i] in files && sizes[i] == |files[Archived(names)[i]].content|
  }

  lemma {:induction false} ArchivedWeight(names: seq<string>, entries: map<string, Row>, files: map<string, File>)
    requires forall n :: n in names ==> n in files && n in entries && entries[n].bytes == |files[n].content|
    ensures forall n :: n in Archived(names) ==> n in entries
    ensures Sum(SizesOf(Archived(names), entries)) == Weight(names, files, true)
  {
    hide IsDependency;
    Partition(names);
    if names != [] {
      ArchivedWeight(names[1..], entries, files);
      if IsDependency(names[0]) {
        assert Archived(names)[1..] == Archived(names[1..]);
        assert SizesOf(Archived(names), entries)[1..] == SizesOf(Archived(names[1..]), entries);
      } else {
        assert Archived(names) == Archived(names[1..]);
      }
    }
  }

  lemma {:induction false} DirectWeight(names: seq<string>, entries: map<string, Row>, files: map<string, File>)
    requires forall n :: n in names ==> n in files && n in entries && entries[n].bytes == |files[n].content|
    ensures forall n :: n in Direct(names) ==> n in entries
    ensures Sum(SizesOf(Direct(names), entries)) == Weight(names, files, false)
  {
    hide IsDependency;
    Partition(names);
    if names != [] {
      DirectWeight(names[1..], entries, files);
      if IsDependency(names[0]) {
        assert Direct(names) == Direct(names[1..]);
      } else {
        assert Direct(names)[1..] == Direct(names[1..]);
        assert SizesOf(Direct(names), entries)[1..] == SizesOf(Direct(names[1..]), entries);
      }
    }
  }

  lemma ListedIsOk(b: Bundle, sha: Digest, line: string)
    ensures Listed(b, sha, line) <==> LineOk(line, b.files, sha)
  {
    hide Parses;
  }

  lemma ArchivedCount(names: seq<string>)
    requires Distinct(names)
    ensures |set n | n in names && IsDependency(n)| == |Archived(names)|
  {
    hide IsDependency, Archived, Direct;
    Partition(names);
    DistinctCount(names);
    DirectCount(names);
    var all, bank, others := set n | n in names, set n | n in names && IsDependency(n),
                             set n | n in names && !IsDependency(n);
    assert all == bank + others && bank !! others;
    assert all == set x | x in names;
  }

  lemma FitsInNumbers(b: Bundle, sha: Digest)
    requires EntriesOk(b.lines, b.files, sha)
    ensures var names, entries := Names(b.lines), EntriesOf(b, sha);
            && (forall n :: n in Archived(names) ==> n in entries)
            && SizesAre(SizesOf(Archived(names), entries), names, b.files)
            && (Fits(names, entries, b.free) <==> Bounded(b, names, TarBytes(SizesOf(Archived(names), entries))))
  {
    hide Parses, NameOf, IsDependency, TarBytes, Weight, Sum, Archived, Direct;
    var names, entries := Names(b.lines), EntriesOf(b, sha);
    NamesDiffer(b, sha);
    Partition(names);
    ArchivedWeight(names, entries, b.files);
    DirectWeight(names, entries, b.files);
    ArchivedCount(names);
    hide Distinct, EntriesOk;
    var bank := Archived(names);
    var sizes := SizesOf(bank, entries);
    assert forall i :: 0 <= i < |bank| ==> bank[i] in bank && sizes[i] == |b.files[bank[i]].content|;
    assert (forall i :: 0 <= i < |sizes| ==> sizes[i] <= 134217728) <==>
           (forall n :: n in bank ==> |b.files[n].content| <= 134217728);
  }

  lemma OneSizes(a: seq<nat>, b: seq<nat>, names: seq<string>, files: map<string, File>)
    requires forall n :: n in names ==> n in files
    requires SizesAre(a, names, files) && SizesAre(b, names, files)
    ensures a == b
  {
  }

  lemma ToolsInNumbers(b: Bundle, sha: Digest)
    requires EntriesOk(b.lines, b.files, sha)
    ensures ToolsOk(b, EntriesOf(b, sha)) <==>
            forall t :: t in b.tools ==>
              exists i :: 0 <= i < |b.lines| && Names(b.lines)[i] == t && b.lines[i][..64] == b.tools[t]
  {
    hide IsSha, IsName, NameOf, FileOk;
    var names, entries := Names(b.lines), EntriesOf(b, sha);
    forall i | 0 <= i < |b.lines| ensures names[i] in entries && entries[names[i]].sha256 == b.lines[i][..64] {
      assert LineOk(b.lines[i], b.files, sha);
      assert names[i] in names;
    }
    forall t | t in entries ensures exists i :: 0 <= i < |b.lines| && names[i] == t {
      assert t in names;
    }
  }

  lemma AdmittedInNumbers(b: Bundle, sha: Digest)
    ensures Admitted(b, sha) <==> Acceptable(b, sha)
  {
    hide Parses, NameOf, Lower, IsDependency, TarBytes, Weight, Sum, Archived, Direct, Fits, Bounded, IsSha, ToolsOk;
    forall i | 0 <= i < |b.lines| ensures Listed(b, sha, b.lines[i]) <==> LineOk(b.lines[i], b.files, sha) {
      ListedIsOk(b, sha, b.lines[i]);
    }
    hide Listed, LineOk;
    if EntriesOk(b.lines, b.files, sha) {
      FitsInNumbers(b, sha);
      ToolsInNumbers(b, sha);
      NewNamesAreFree(b, sha);
      var names := Names(b.lines);
      var sizes := SizesOf(Archived(names), EntriesOf(b, sha));
      forall other | SizesAre(other, names, b.files) ensures other == sizes { OneSizes(other, sizes, names, b.files); }
      hide SizesAre;
    }
  }

  // ---------------------------------------------------------------- what a build conserves

  /** Every source file is in exactly one place: copied unchanged under its own name, or a member of the
      archive, whose reader gives back the dependencies in archive order, byte for byte. */
  lemma EveryFileIsKept(b: Bundle, sha: Digest, descriptor: seq<byte>, out: Output, name: string)
    requires forall x :: IsSha(sha(x))
    requires Admitted(b, sha) && Wraps(b, sha, descriptor, out) && name in Names(b.lines)
    ensures name in out.files <==> !IsDependency(name)
    ensures name in out.files ==> out.files[name] == b.files[name].content
    ensures Read(out.files[ARCHIVE]) == Some(Bank(b, sha))
    ensures IsDependency(name) ==>
              Member(Ascii("f-" + sha(Ascii(name))), b.files[name].content) in Bank(b, sha)
  {
    hide EntriesOk, ManifestOk, ToolsOk, Fits, Bank, Archive, Read, IsDependency;
    NewNamesAreFree(b, sha);
    ReadsBack(Bank(b, sha), out.files[ARCHIVE]);
    if IsDependency(name) { BankHolds(b, sha, name); }
  }

  lemma ReadsBack(ms: seq<Member>, archive: seq<byte>)
    requires AllStorable(ms) && archive == Archive(ms)
    ensures Read(archive) == Some(ms)
  {
    RoundTrip(ms);
  }

  lemma BankHolds(b: Bundle, sha: Digest, name: string)
    requires forall x :: IsSha(sha(x))
    requires Admitted(b, sha) && name in Names(b.lines) && IsDependency(name)
    ensures MemberOf(name, b.files, sha) in Bank(b, sha)
  {
    hide Parses, FileOk, IsDependency, ManifestOk, ToolsOk, Fits, Label, Sorted, Archived;
    Partition(Names(b.lines));
    BankIsStorable(b, sha);
    var order := Sorted(Archived(Names(b.lines)));
    var i :| 0 <= i < |order| && order[i] == name;
    assert Bank(b, sha)[i] == MemberOf(name, b.files, sha);
  }

  /** The outer manifest keeps every inner digest and adds two names; it is right about every file written. */
  lemma OuterManifest(b: Bundle, sha: Digest, archive: seq<byte>, descriptor: seq<byte>, out: Output)
    requires EntriesOk(b.lines, b.files, sha)
    requires forall n :: n in Names(b.lines) ==> n in b.files
    requires Placed(Names(b.lines), b.files, sha, archive, descriptor, out)
    ensures out.sums.Keys - {ARCHIVE, DESCRIPTOR} == set n | n in Names(b.lines)
    ensures forall i :: 0 <= i < |b.lines| ==>
              NameOf(b.lines[i]) in out.sums && out.sums[NameOf(b.lines[i])] == b.lines[i][..64]
    ensures forall n :: n in out.files ==> n in out.sums && out.sums[n] == sha(out.files[n])
  {
    NewNamesAreFree(b, sha);
    forall i | 0 <= i < |b.lines|
      ensures NameOf(b.lines[i]) in out.sums && out.sums[NameOf(b.lines[i])] == b.lines[i][..64]
    {
      assert LineOk(b.lines[i], b.files, sha);
      assert Names(b.lines)[i] == NameOf(b.lines[i]) && NameOf(b.lines[i]) in Names(b.lines);
    }
  }

  /** The files written, with the outer manifest, number the unarchived entries and three more. */
  lemma AssetCount(b: Bundle, sha: Digest, archive: seq<byte>, descriptor: seq<byte>, out: Output)
    requires EntriesOk(b.lines, b.files, sha)
    requires forall n :: n in Names(b.lines) ==> n in b.files
    requires Placed(Names(b.lines), b.files, sha, archive, descriptor, out)
    ensures |out.files| + 1 == |b.lines| - |Archived(Names(b.lines))| + 3
    ensures |out.sums| == |b.lines| + 2
  {
    hide Parses, NameOf, FileOk, Placed, Distinct;
    NewNamesAreFree(b, sha);
    NamesDiffer(b, sha);
    CountPlaced(Names(b.lines), b.files, sha, archive, descriptor, out);
  }

  lemma CountPlaced(names: seq<string>, files: map<string, File>, sha: Digest, archive: seq<byte>,
                    descriptor: seq<byte>, out: Output)
    requires Distinct(names) && ARCHIVE !in names && DESCRIPTOR !in names && ARCHIVE != DESCRIPTOR
    requires forall n :: n in names ==> n in files
    requires Placed(names, files, sha, archive, descriptor, out)
    ensures |out.files| + 1 == |names| - |Archived(names)| + 3
    ensures |out.sums| == |names| + 2
  {
    hide IsDependency, Archived, Direct, Distinct, RowOf;
    DistinctCount(names);
    DirectCount(names);
    TwoMore(out.files, set n | n in names && !IsDependency(n));
    TwoMore(out.sums, set n | n in names);
  }

  /** So an admitted bundle never yields 200 files. */
  lemma FewerThan200(b: Bundle, sha: Digest, descriptor: seq<byte>, out: Output)
    requires forall x :: IsSha(sha(x))
    requires Admitted(b, sha) && Wraps(b, sha, descriptor, out)
    ensures |out.files| + 1 < 200
  {
    hide Parses, NameOf, FileOk, ManifestOk, ToolsOk, Bank, Archive, TarBytes, Placed;
    AssetCount(b, sha, Archive(Bank(b, sha)), descriptor, out);
    assert Fits(Names(b.lines), EntriesOf(b, sha), b.free);
  }

  lemma DirectCount(names: seq<string>)
    requires Distinct(names)
    ensures |set n | n in names && !IsDependency(n)| == |names| - |Archived(names)|
  {
    hide IsDependency, Archived, Direct;
    Partition(names);
    DirectIsDistinct(names);
    DistinctCount(Direct(names));
    assert (set n | n in names && !IsDependency(n)) == set n | n in Direct(names);
  }

  lemma TwoMore<T>(m: map<string, T>, names: set<string>)
    requires m.Keys == names + {ARCHIVE, DESCRIPTOR} && ARCHIVE !in names && DESCRIPTOR !in names
    requires ARCHIVE != DESCRIPTOR
    ensures |m| == |names| + 2
  {
    assert m.Keys == names + {ARCHIVE} + {DESCRIPTOR};
    assert |m| == |m.Keys|;
  }

  lemma NamesDiffer(b: Bundle, sha: Digest)
    requires EntriesOk(b.lines, b.files, sha)
    ensures Distinct(Names(b.lines))
  {
  }

  lemma {:induction false} DirectIsDistinct(names: seq<string>)
    requires Distinct(names)
    ensures Distinct(Direct(names))
  {
    if names != [] {
      DirectIsDistinct(names[1..]);
      Partition(names[1..]);
      assert names[0] !in names[1..];
    }
  }
}
