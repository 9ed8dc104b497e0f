/** Bounded reading of a 64-bit little-endian ELF image and its runtime closure. Every reader demands that
    its bytes lie in the image, so a verified caller never reads outside it. */
module Elf {
  import opened Collections
  import opened Wrappers

  datatype Architecture = X8664 | AArch64

  datatype Header = Header(kind: nat, offset: nat, address: nat, size: nat)

  datatype Entry = Entry(tag: nat, value: nat)

  const LOAD := 1
  const DYNAMIC := 2
  const INTERPRETER := 3
  const NEEDED := 1
  const STRTAB := 5
  const STRSZ := 10

  function Machine(arch: Architecture): nat {
    match arch case X8664 => 62 case AArch64 => 183
  }

  function Interpreter(arch: Architecture): seq<byte> {
    match arch
    case X8664 => Ascii("/lib/ld-musl-x86_64.so.1")
    case AArch64 => Ascii("/lib/ld-musl-aarch64.so.1")
  }

  function Libgcc(): seq<byte> { Ascii("libgcc_s.so.1") }

  function Libc(): seq<byte> { Ascii("libc.so") }

  // ---------------------------------------------------------------- little-endian readers

  function U16(raw: seq<byte>, at: nat): (r: nat)
    requires at + 2 <= |raw|
    ensures r < 0x1_0000
  {
    raw[at] as int + 0x100 * raw[at + 1] as int
  }

  function U32(raw: seq<byte>, at: nat): (r: nat)
    requires at + 4 <= |raw|
    ensures r < 0x1_0000_0000
  {
    U16(raw, at) + 0x1_0000 * U16(raw, at + 2)
  }

  function U64(raw: seq<byte>, at: nat): (r: nat)
    requires at + 8 <= |raw|
    ensures r < 0x1_0000_0000_0000_0000
  {
    U32(raw, at) + 0x1_0000_0000 * U32(raw, at + 4)
  }

  // ---------------------------------------------------------------- the layout of the image

  predicate Identified(raw: seq<byte>, arch: Architecture) {
    && |raw| >= 64 && raw[..6] == [0x7f, 0x45, 0x4c, 0x46, 2, 1]
    && U16(raw, 18) == Machine(arch) && 2 <= U16(raw, 16) <= 3
  }

  predicate TableInside(raw: seq<byte>)
    requires |raw| >= 64
  {
    U16(raw, 54) == 56 && 1 <= U16(raw, 56) <= 64 && U64(raw, 32) + 56 * U16(raw, 56) <= |raw|
  }

  function HeaderAt(raw: seq<byte>, at: nat): Header
    requires at + 56 <= |raw|
  {
    Header(U32(raw, at), U64(raw, at + 8), U64(raw, at + 16), U64(raw, at + 32))
  }

  function HeadersOf(raw: seq<byte>): (r: seq<Header>)
    requires |raw| >= 64 && TableInside(raw)
    ensures |r| == U16(raw, 56)
  {
    seq(U16(raw, 56), k requires 0 <= k < U16(raw, 56) => HeaderAt(raw, U64(raw, 32) + 56 * k))
  }

  predicate Inside(h: Header, length: nat) {
    h.offset + h.size <= length
  }

  ghost predicate Framed(raw: seq<byte>, arch: Architecture) {
    && Identified(raw, arch) && TableInside(raw)
    && forall k :: 0 <= k < |HeadersOf(raw)| ==> Inside(HeadersOf(raw)[k], |raw|)
  }

  function EntriesOf(raw: seq<byte>, h: Header): (r: seq<Entry>)
    requires Inside(h, |raw|) && h.size % 16 == 0
    ensures |r| == h.size / 16
  {
    seq(h.size / 16, k requires 0 <= k < h.size / 16 =>
      Entry(U64(raw, h.offset + 16 * k), U64(raw, h.offset + 16 * k + 8)))
  }

  // ---------------------------------------------------------------- selecting by position

  function Where(marks: seq<bool>): (r: seq<nat>)
    ensures forall i :: 0 <= i < |r| ==> r[i] < |marks| && marks[r[i]]
    ensures forall k: nat :: k < |marks| && marks[k] ==> k in r
    ensures forall i, j :: 0 <= i < j < |r| ==> r[i] < r[j]
  {
    if marks == [] then []
    else
      var n: nat := |marks| - 1;
      Where(marks[..n]) + if marks[n] then [n] else []
  }

  ghost predicate Only(marks: seq<bool>, k: nat) {
    k < |marks| && marks[k] && forall j :: 0 <= j < |marks| && marks[j] ==> j == k
  }

  ghost predicate Both(marks: seq<bool>, i: nat, j: nat) {
    i < j < |marks| && marks[i] && marks[j] && forall k :: 0 <= k < |marks| && marks[k] ==> k == i || k == j
  }

  lemma OnlyIsSingleton(marks: seq<bool>, k: nat)
    ensures Only(marks, k) <==> Where(marks) == [k]
  {
    var at := Where(marks);
    if Only(marks, k) {
      assert k in at;
    }
    if at == [k] {
      assert at[0] == k;
      assert forall j: nat :: j < |marks| && marks[j] ==> j in at;
    }
  }

  lemma BothIsPair(marks: seq<bool>, i: nat, j: nat)
    ensures Both(marks, i, j) <==> Where(marks) == [i, j]
  {
    var at := Where(marks);
    if Both(marks, i, j) {
      assert i in at && j in at;
    }
    if at == [i, j] {
      assert at[0] == i && at[1] == j;
      assert forall k: nat :: k < |marks| && marks[k] ==> k in at;
    }
  }

  function OfKind(headers: seq<Header>, kind: nat): (r: seq<bool>) {
    seq(|headers|, k requires 0 <= k < |headers| => headers[k].kind == kind)
  }

  function Tagged(entries: seq<Entry>, tag: nat): (r: seq<bool>) {
    seq(|entries|, k requires 0 <= k < |entries| => entries[k].tag == tag)
  }

  /** The loadable segments whose file-backed bytes hold the whole address range. */
  function Covering(headers: seq<Header>, address: nat, size: nat): (r: seq<bool>) {
    seq(|headers|, k requires 0 <= k < |headers| =>
      headers[k].kind == LOAD && headers[k].address <= address
      && address + size <= headers[k].address + headers[k].size)
  }

  // ---------------------------------------------------------------- dependency names

  /** `name` stands at `at`, ended by the first zero byte. */
  predicate IsName(strings: seq<byte>, at: nat, name: seq<byte>) {
    at + |name| < |strings| && strings[at..at + |name|] == name && strings[at + |name|] == 0
    && name != [] && 0 !in name
  }

  lemma OneName(strings: seq<byte>, at: nat, a: seq<byte>, b: seq<byte>)
    requires IsName(strings, at, a) && IsName(strings, at, b)
    ensures a == b
  {
    var s := strings[at..];
    assert s[..|a|] == a && s[..|b|] == b && s[|a|] == 0 && s[|b|] == 0;
  }

  method FindZero(strings: seq<byte>, start: nat) returns (end: int)
    requires start < |strings|
    ensures end == -1 || start <= end < |strings|
    ensures end == -1 ==> 0 !in strings[start..]
    ensures end != -1 ==> strings[end] == 0 && 0 !in strings[start..end]
  {
    for i := start to |strings|
      invariant 0 !in strings[start..i]
    {
      if strings[i] == 0 { return i; }
      assert strings[start..i + 1] == strings[start..i] + [strings[i]];
    }
    assert strings[start..|strings|] == strings[start..];
    return -1;
  }

  /** One pass of the dependency loop; a name must also be ASCII to be decoded. */
  method ReadName(strings: seq<byte>, at: nat) returns (r: Option<seq<byte>>)
    ensures r.Some? ==> IsName(strings, at, r.value)
    ensures r.None? ==> forall name :: IsName(strings, at, name) ==> exists c :: c in name && c >= 128
  {
    if at >= |strings| { return None; }
    var end := FindZero(strings, at);
    if end <= at {
      forall name: seq<byte> ensures !IsName(strings, at, name) {
        assert end == -1 && at + |name| < |strings| ==> strings[at..][|name|] != 0;
        assert end == at && name != [] && at + |name| < |strings| ==> strings[at..at + |name|][0] == 0;
      }
      return None;
    }
    assert IsName(strings, at, strings[at..end]);
    if exists k :: at <= k < end && strings[k] >= 128 {
      forall name | IsName(strings, at, name) ensures exists c :: c in name && c >= 128 {
        OneName(strings, at, name, strings[at..end]);
        var k :| at <= k < end && strings[k] >= 128;
        assert strings[at..end][k - at] in name;
      }
      return None;
    }
    return Some(strings[at..end]);
  }

  ghost predicate Runtime(strings: seq<byte>, first: nat, second: nat) {
    || (IsName(strings, first, Libgcc()) && IsName(strings, second, Libc()))
    || (IsName(strings, first, Libc()) && IsName(strings, second, Libgcc()))
  }

  method ReadLibraries(strings: seq<byte>, needed: seq<nat>) returns (r: Option<set<seq<byte>>>)
    requires |needed| == 2
    ensures r.Some? <==> Runtime(strings, needed[0], needed[1])
    ensures r.Some? ==> r.value == {Libgcc(), Libc()}
  {
    var libraries: seq<seq<byte>> := [];
    for n := 0 to 2
      invariant |libraries| == n
      invariant forall k :: 0 <= k < n ==> IsName(strings, needed[k], libraries[k])
    {
      var name := ReadName(strings, needed[n]);
      if name.None? {
        NoName(strings, needed[n]);
        return None;
      }
      libraries := libraries + [name.value];
    }
    NamesDiffer();
    if {libraries[0], libraries[1]} != {Libgcc(), Libc()} {
      if Runtime(strings, needed[0], needed[1]) {
        NamedAs(strings, needed[0], libraries[0]);
        NamedAs(strings, needed[1], libraries[1]);
        assert false;
      }
      return None;
    }
    assert libraries[0] in {Libgcc(), Libc()} && libraries[1] in {Libgcc(), Libc()};
    assert Libgcc() in {libraries[0], libraries[1]} && Libc() in {libraries[0], libraries[1]};
    return Some({libraries[0], libraries[1]});
  }

  lemma NamesDiffer()
    ensures Libgcc() != Libc()
  {
    assert |Libgcc()| == 13 && |Libc()| == 7;
  }

  lemma NoName(strings: seq<byte>, at: nat)
    requires forall name :: IsName(strings, at, name) ==> exists c :: c in name && c >= 128
    ensures !IsName(strings, at, Libgcc()) && !IsName(strings, at, Libc())
  {
    assert forall c :: c in Libgcc() ==> c < 128;
    assert forall c :: c in Libc() ==> c < 128;
  }

  lemma NamedAs(strings: seq<byte>, at: nat, name: seq<byte>)
    requires IsName(strings, at, name)
    ensures IsName(strings, at, Libgcc()) ==> name == Libgcc()
    ensures IsName(strings, at, Libc()) ==> name == Libc()
  {
    if IsName(strings, at, Libgcc()) { OneName(strings, at, name, Libgcc()); }
    if IsName(strings, at, Libc()) { OneName(strings, at, name, Libc()); }
  }

  // ---------------------------------------------------------------- markers

  predicate StandsAt(marker: seq<byte>, raw: seq<byte>, at: nat) {
    at + |marker| <= |raw| && raw[at..at + |marker|] == marker
  }

  predicate Occurs(marker: seq<byte>, raw: seq<byte>) {
    exists i :: 0 <= i <= |raw| - |marker| && StandsAt(marker, raw, i)
  }

  predicate Production(raw: seq<byte>) {
    && Occurs(Ascii("foxhole-apply") + [0], raw) && Occurs(Ascii("foxhole-recover") + [0], raw)
    && !Occurs(Ascii("FOXHOLE_QA_FAIL_WORLD"), raw) && !Occurs(Ascii("FOXHOLE_QA_FAIL_SYNC"), raw)
    && !Occurs(Ascii("FOXHOLE_QA_FAIL_DIRSYNC"), raw) && !Occurs(Ascii("FOXHOLE_QA_GATE"), raw)
    && !Occurs(Ascii("foxhole-rollback") + [0], raw) && !Occurs(Ascii("foxhole-apply-multi") + [0], raw)
    && !Occurs(Ascii("foxhole-recover-multi") + [0], raw)
  }

  /** The text stands somewhere in the image. */
  ghost predicate Contains(raw: seq<byte>, text: string) {
    exists before: seq<byte>, behind: seq<byte> :: raw == before + Ascii(text) + behind
  }

  lemma OccursIsContained(raw: seq<byte>, text: string)
    ensures Occurs(Ascii(text), raw) <==> Contains(raw, text)
  {
    hide Ascii;
    var marker := Ascii(text);
    if Occurs(marker, raw) {
      var i :| 0 <= i <= |raw| - |marker| && StandsAt(marker, raw, i);
      assert raw == raw[..i] + marker + raw[i + |marker|..];
    }
    if before: seq<byte>, behind: seq<byte> :| raw == before + marker + behind {
      assert StandsAt(marker, raw, |before|);
    }
  }

  lemma EndsInZero(text: string)
    ensures Ascii(text + "\0") == Ascii(text) + [0]
  {
  }

  /** A normal artifact holds both applet names and none of the names that only test builds hold. */
  lemma ProductionMarkers(raw: seq<byte>)
    ensures Production(raw) <==>
            && Contains(raw, "foxhole-apply\0") && Contains(raw, "foxhole-recover\0")
            && !Contains(raw, "FOXHOLE_QA_FAIL_WORLD") && !Contains(raw, "FOXHOLE_QA_FAIL_SYNC")
            && !Contains(raw, "FOXHOLE_QA_FAIL_DIRSYNC") && !Contains(raw, "FOXHOLE_QA_GATE")
            && !Contains(raw, "foxhole-rollback\0") && !Contains(raw, "foxhole-apply-multi\0")
            && !Contains(raw, "foxhole-recover-multi\0")
  {
    ZeroTerminated(raw, "foxhole-apply", "foxhole-apply\0");
    ZeroTerminated(raw, "foxhole-recover", "foxhole-recover\0");
    ZeroTerminated(raw, "foxhole-rollback", "foxhole-rollback\0");
    ZeroTerminated(raw, "foxhole-apply-multi", "foxhole-apply-multi\0");
    ZeroTerminated(raw, "foxhole-recover-multi", "foxhole-recover-multi\0");
    OccursIsContained(raw, "FOXHOLE_QA_FAIL_WORLD");
    OccursIsContained(raw, "FOXHOLE_QA_FAIL_SYNC");
    OccursIsContained(raw, "FOXHOLE_QA_FAIL_DIRSYNC");
    OccursIsContained(raw, "FOXHOLE_QA_GATE");
    hide Occurs, Contains, Ascii;
  }

  lemma ZeroTerminated(raw: seq<byte>, text: string, ended: string)
    requires ended == text + "\0"
    ensures Occurs(Ascii(text) + [0], raw) <==> Contains(raw, ended)
  {
    EndsInZero(text);
    OccursIsContained(raw, ended);
  }

  // ---------------------------------------------------------------- the decision

  /** Which header and which dynamic entry play each part. */
  datatype Parts = Parts(interpreter: nat, dynamic: nat, table: nat, length: nat, first: nat, second: nat, load: nat)

  ghost predicate Loads(raw: seq<byte>, arch: Architecture, headers: seq<Header>, interpreter: nat, dynamic: nat) {
    && Only(OfKind(headers, INTERPRETER), interpreter) && Only(OfKind(headers, DYNAMIC), dynamic)
    && Inside(headers[interpreter], |raw|)
    && Slice(raw, headers[interpreter]) == Interpreter(arch) + [0]
    && headers[dynamic].size % 16 == 0 && headers[dynamic].size <= 65536
  }

  function Slice(raw: seq<byte>, h: Header): seq<byte>
    requires Inside(h, |raw|)
  {
    raw[h.offset..h.offset + h.size]
  }

  ghost predicate Links(headers: seq<Header>, entries: seq<Entry>, p: Parts) {
    && Only(Tagged(entries, STRTAB), p.table) && Only(Tagged(entries, STRSZ), p.length)
    && Both(Tagged(entries, NEEDED), p.first, p.second)
    && 1 <= entries[p.length].value <= 1048576
    && Only(Covering(headers, entries[p.table].value, entries[p.length].value), p.load)
  }

  /** The file offset of an address in a loadable segment. */
  function FileOffset(h: Header, address: nat): int {
    h.offset + address - h.address
  }

  /** The closing length check of the string table is implied by the checks before it. */
  lemma TableLiesInTheSegment(raw: seq<byte>, headers: seq<Header>, k: nat, address: nat, size: nat)
    requires k < |headers| && Inside(headers[k], |raw|) && Covering(headers, address, size)[k]
    ensures headers[k].offset <= FileOffset(headers[k], address)
    ensures FileOffset(headers[k], address) + size <= headers[k].offset + headers[k].size <= |raw|
  {
  }

  ghost predicate Reads(raw: seq<byte>, arch: Architecture, p: Parts) {
    && Framed(raw, arch) && Loads(raw, arch, HeadersOf(raw), p.interpreter, p.dynamic)
    && Links(HeadersOf(raw), EntriesOf(raw, HeadersOf(raw)[p.dynamic]), p)
    && var entries := EntriesOf(raw, HeadersOf(raw)[p.dynamic]);
       Runtime(Strings(raw, HeadersOf(raw)[p.load], entries[p.table].value, entries[p.length].value),
               entries[p.first].value, entries[p.second].value)
  }

  function Strings(raw: seq<byte>, h: Header, address: nat, size: nat): seq<byte>
    requires Inside(h, |raw|) && h.address <= address && address + size <= h.address + h.size
  {
    raw[FileOffset(h, address)..FileOffset(h, address) + size]
  }

  ghost predicate Admitted(raw: seq<byte>, arch: Architecture) {
    Production(raw) && exists p :: Reads(raw, arch, p)
  }

  method ReadHeaders(raw: seq<byte>, arch: Architecture) returns (r: Result<seq<Header>>)
    ensures r.Ok? <==> Framed(raw, arch)
    ensures r.Ok? ==> r.value == HeadersOf(raw)
  {
    if !Identified(raw, arch) { return Refused("Normal little-endian ELF64 target required"); }
    if !TableInside(raw) { return Refused("Bounded ELF program headers required"); }
    var headers := HeadersOf(raw);
    for k := 0 to |headers|
      invariant forall j :: 0 <= j < k ==> Inside(headers[j], |raw|)
    {
      if headers[k].offset + headers[k].size > |raw| { return Refused("ELF segment outside file"); }
    }
    return Ok(headers);
  }

  method FindSegments(raw: seq<byte>, arch: Architecture, headers: seq<Header>)
    returns (ok: bool, interpreter: nat, dynamic: nat)
    requires forall k :: 0 <= k < |headers| ==> Inside(headers[k], |raw|)
    ensures ok ==> Loads(raw, arch, headers, interpreter, dynamic)
    ensures forall i: nat, d: nat :: Loads(raw, arch, headers, i, d) ==> ok && i == interpreter && d == dynamic
  {
    var interpreters, dynamics := Where(OfKind(headers, INTERPRETER)), Where(OfKind(headers, DYNAMIC));
    forall k: nat ensures Only(OfKind(headers, INTERPRETER), k) <==> interpreters == [k] {
      OnlyIsSingleton(OfKind(headers, INTERPRETER), k);
    }
    forall k: nat ensures Only(OfKind(headers, DYNAMIC), k) <==> dynamics == [k] {
      OnlyIsSingleton(OfKind(headers, DYNAMIC), k);
    }
    if |interpreters| != 1 || |dynamics| != 1 { return false, 0, 0; }
    interpreter, dynamic := interpreters[0], dynamics[0];
    assert interpreters == [interpreter] && dynamics == [dynamic];
    var item := headers[dynamic];
    ok := && Slice(raw, headers[interpreter]) == Interpreter(arch) + [0]
          && item.size % 16 == 0 && item.size <= 65536;
  }

  method FindTable(headers: seq<Header>, entries: seq<Entry>) returns (ok: bool, p: Parts)
    ensures ok ==> Links(headers, entries, p)
    ensures forall q: Parts :: Links(headers, entries, q) ==>
              ok && q == p.(interpreter := q.interpreter, dynamic := q.dynamic)
  {
    hide Where;
    p := Parts(0, 0, 0, 0, 0, 0, 0);
    var addresses, sizes := Where(Tagged(entries, STRTAB)), Where(Tagged(entries, STRSZ));
    var needed := Where(Tagged(entries, NEEDED));
    forall k: nat ensures Only(Tagged(entries, STRTAB), k) <==> addresses == [k] {
      OnlyIsSingleton(Tagged(entries, STRTAB), k);
    }
    forall k: nat ensures Only(Tagged(entries, STRSZ), k) <==> sizes == [k] {
      OnlyIsSingleton(Tagged(entries, STRSZ), k);
    }
    forall i: nat, j: nat ensures Both(Tagged(entries, NEEDED), i, j) <==> needed == [i, j] {
      BothIsPair(Tagged(entries, NEEDED), i, j);
    }
    if |addresses| != 1 || |sizes| != 1 || |needed| != 2 { return false, p; }
    assert addresses == [addresses[0]] && sizes == [sizes[0]] && needed == [needed[0], needed[1]];
    var address, size := entries[addresses[0]].value, entries[sizes[0]].value;
    if !(1 <= size <= 1048576) { return false, p; }
    var location := Where(Covering(headers, address, size));
    forall k: nat ensures Only(Covering(headers, address, size), k) <==> location == [k] {
      OnlyIsSingleton(Covering(headers, address, size), k);
    }
    if |location| != 1 { return false, p; }
    assert location == [location[0]];
    p := Parts(0, 0, addresses[0], sizes[0], needed[0], needed[1], location[0]);
    ok := true;
  }

  method ElfClosure(raw: seq<byte>, arch: Architecture) returns (r: Result<set<seq<byte>>>)
    ensures r.Ok? <==> Admitted(raw, arch)
    ensures r.Ok? ==> r.value == {Libgcc(), Libc()}
  {
    hide Runtime, Production, Ascii, Identified, HeaderAt, U64;
    var framed := ReadHeaders(raw, arch);
    if framed.Refused? { return Refused(framed.reason); }
    var headers := framed.value;
    var found, interpreter, dynamic := FindSegments(raw, arch, headers);
    if !found { return Refused("One musl interpreter and dynamic table required"); }
    var entries := EntriesOf(raw, headers[dynamic]);
    var linked, p := FindTable(headers, entries);
    if !linked { return Refused("Exact runtime closure table required"); }
    var address, size := entries[p.table].value, entries[p.length].value;
    TableLiesInTheSegment(raw, headers, p.load, address, size);
    var strings := Strings(raw, headers[p.load], address, size);
    var libraries := ReadLibraries(strings, [entries[p.first].value, entries[p.second].value]);
    p := p.(interpreter := interpreter, dynamic := dynamic);
    if libraries.None? { return Refused("Only libgcc and musl runtime dependencies admitted"); }
    assert Reads(raw, arch, p);
    if !Production(raw) { return Refused("Not a normal transaction artifact"); }
    return Ok(libraries.value);
  }

  // ---------------------------------------------------------------- what acceptance means

  /** An image can be read in one way only. */
  lemma OneReading(raw: seq<byte>, arch: Architecture, p: Parts, q: Parts)
    requires Reads(raw, arch, p) && Reads(raw, arch, q)
    ensures p == q
  {
  }

  /** An admitted image holds both library names, zero-terminated, in the file-backed bytes of one loadable
      segment, and they are the names its dynamic table asks for. */
  lemma NamesAreInTheFile(raw: seq<byte>, arch: Architecture, p: Parts)
    requires Reads(raw, arch, p)
    ensures var h := HeadersOf(raw)[p.load];
            var entries := EntriesOf(raw, HeadersOf(raw)[p.dynamic]);
            var base := FileOffset(h, entries[p.table].value);
            var a, b := base + entries[p.first].value, base + entries[p.second].value;
            && h.offset <= a < h.offset + h.size <= |raw| && h.offset <= b < h.offset + h.size
            && (|| (IsName(raw, a, Libgcc()) && IsName(raw, b, Libc()))
                || (IsName(raw, a, Libc()) && IsName(raw, b, Libgcc())))
  {
    hide IsName, Ascii, HeaderAt, U64;
    var headers := HeadersOf(raw);
    var entries := EntriesOf(raw, headers[p.dynamic]);
    NamesInSegment(raw, headers[p.load], entries[p.table].value, entries[p.length].value,
                   entries[p.first].value, entries[p.second].value);
  }

  lemma NamesInSegment(raw: seq<byte>, h: Header, address: nat, size: nat, first: nat, second: nat)
    requires Inside(h, |raw|) && h.address <= address && address + size <= h.address + h.size
    requires Runtime(Strings(raw, h, address, size), first, second)
    ensures var a, b := FileOffset(h, address) + first, FileOffset(h, address) + second;
            && h.offset <= a < h.offset + h.size && h.offset <= b < h.offset + h.size
            && (|| (IsName(raw, a, Libgcc()) && IsName(raw, b, Libc()))
                || (IsName(raw, a, Libc()) && IsName(raw, b, Libgcc())))
  {
    hide IsName, Ascii;
    var strings, base := Strings(raw, h, address, size), FileOffset(h, address);
    assert strings == raw[base..base + size];
    if IsName(strings, first, Libgcc()) && IsName(strings, second, Libc()) {
      Shifted(raw, base, size, first, Libgcc());
      Shifted(raw, base, size, second, Libc());
    } else {
      Shifted(raw, base, size, first, Libc());
      Shifted(raw, base, size, second, Libgcc());
    }
  }

  lemma Shifted(raw: seq<byte>, base: nat, size: nat, at: nat, name: seq<byte>)
    requires base + size <= |raw| && IsName(raw[base..base + size], at, name)
    ensures IsName(raw, base + at, name) && at < size
  {
    var strings := raw[base..base + size];
    forall i | 0 <= i < |name| ensures raw[base + at + i] == name[i] {
      assert strings[at..at + |name|][i] == name[i] && strings[at + i] == raw[base + (at + i)];
    }
    assert strings[at + |name|] == raw[base + (at + |name|)];
    assert raw[base + at..base + at + |name|] == name;
  }

  /** An image cannot be admitted for both architectures. */
  lemma OneArchitecture(raw: seq<byte>)
    ensures !(Admitted(raw, X8664) && Admitted(raw, AArch64))
  {
  }

  // ---------------------------------------------------------------- acceptance in the numbers of the gABI

  function Word(raw: seq<byte>, at: nat): nat {
    if at + 8 <= |raw| then U64(raw, at) else 0
  }

  /** Field of program header k: its type stands at the beginning, offset, address and file size 8, 16 and 32 bytes
      further on. */
  function SegmentKind(raw: seq<byte>, k: nat): nat {
    if Word(raw, 32) + 56 * k + 4 <= |raw| then U32(raw, Word(raw, 32) + 56 * k) else 0
  }

  function SegmentOffset(raw: seq<byte>, k: nat): nat { Word(raw, Word(raw, 32) + 56 * k + 8) }

  function SegmentAddress(raw: seq<byte>, k: nat): nat { Word(raw, Word(raw, 32) + 56 * k + 16) }

  function SegmentSize(raw: seq<byte>, k: nat): nat { Word(raw, Word(raw, 32) + 56 * k + 32) }

  /** Dynamic entry k of the table in segment d: the value stands behind the tag. */
  function EntryTag(raw: seq<byte>, d: nat, k: nat): nat { Word(raw, SegmentOffset(raw, d) + 16 * k) }

  function EntryValue(raw: seq<byte>, d: nat, k: nat): nat { Word(raw, SegmentOffset(raw, d) + 16 * k + 8) }

  /** The file as the System V gABI, chapter 4, lays it out: identification, type, machine and the table of at most 64
      program headers of 56 bytes, and every segment inside the file. */
  ghost predicate FileLaidOut(raw: seq<byte>, machine: nat) {
    && |raw| >= 64 && raw[..6] == [0x7f, 0x45, 0x4c, 0x46, 2, 1]
    && U16(raw, 16) in {2, 3} && U16(raw, 18) == machine && U16(raw, 54) == 56
    && 1 <= U16(raw, 56) <= 64 && U64(raw, 32) + 56 * U16(raw, 56) <= |raw|
    && forall k: nat :: k < U16(raw, 56) ==> SegmentOffset(raw, k) + SegmentSize(raw, k) <= |raw|
  }

  /** Chapter 5, program headers: one PT_INTERP (3) that holds the name of the loader, and one PT_DYNAMIC (2). */
  ghost predicate LoaderLaidOut(raw: seq<byte>, loader: seq<byte>, i: nat, d: nat)
    requires |raw| >= 64
  {
    && i < U16(raw, 56) && d < U16(raw, 56)
    && (forall k: nat :: k < U16(raw, 56) ==> (SegmentKind(raw, k) == 3 <==> k == i))
    && (forall k: nat :: k < U16(raw, 56) ==> (SegmentKind(raw, k) == 2 <==> k == d))
    && SegmentOffset(raw, i) + SegmentSize(raw, i) <= |raw|
    && raw[SegmentOffset(raw, i)..SegmentOffset(raw, i) + SegmentSize(raw, i)] == loader + [0]
    && SegmentSize(raw, d) % 16 == 0 && SegmentSize(raw, d) <= 65536
  }

  /** Chapter 5, dynamic section: one DT_STRTAB (5), one DT_STRSZ (10), two DT_NEEDED (1), and one PT_LOAD (1) whose
      file-backed bytes hold the whole string table. */
  ghost predicate TableLaidOut(raw: seq<byte>, p: Parts)
    requires |raw| >= 64
  {
    var d, entries := p.dynamic, SegmentSize(raw, p.dynamic) / 16;
    && p.table < entries && p.length < entries && p.first < p.second < entries
    && (forall k: nat :: k < entries ==> (EntryTag(raw, d, k) == 5 <==> k == p.table))
    && (forall k: nat :: k < entries ==> (EntryTag(raw, d, k) == 10 <==> k == p.length))
    && (forall k: nat :: k < entries ==> (EntryTag(raw, d, k) == 1 <==> k == p.first || k == p.second))
    && 1 <= EntryValue(raw, d, p.length) <= 1048576
    && p.load < U16(raw, 56)
    && forall k: nat :: k < U16(raw, 56) ==>
         (k == p.load <==>
            && SegmentKind(raw, k) == 1 && SegmentAddress(raw, k) <= EntryValue(raw, d, p.table)
            && EntryValue(raw, d, p.table) + EntryValue(raw, d, p.length)
               <= SegmentAddress(raw, k) + SegmentSize(raw, k))
  }

  /** The two names stand in the string table, whose place in the file follows from that of its segment. */
  ghost predicate NamesLaidOut(raw: seq<byte>, p: Parts) {
    var d := p.dynamic;
    var base := SegmentOffset(raw, p.load) + EntryValue(raw, d, p.table) - SegmentAddress(raw, p.load);
    && 0 <= base && base + EntryValue(raw, d, p.length) <= |raw|
    && var strings := raw[base..base + EntryValue(raw, d, p.length)];
       var first, second := EntryValue(raw, d, p.first), EntryValue(raw, d, p.second);
       || (IsName(strings, first, Ascii("libgcc_s.so.1")) && IsName(strings, second, Ascii("libc.so")))
       || (IsName(strings, first, Ascii("libc.so")) && IsName(strings, second, Ascii("libgcc_s.so.1")))
  }

  ghost predicate LaidOut(raw: seq<byte>, machine: nat, loader: seq<byte>, p: Parts) {
    && FileLaidOut(raw, machine) && LoaderLaidOut(raw, loader, p.interpreter, p.dynamic)
    && TableLaidOut(raw, p) && NamesLaidOut(raw, p)
  }

  ghost predicate Mirrors(raw: seq<byte>, headers: seq<Header>) {
    && |raw| >= 64 && |headers| == U16(raw, 56)
    && forall k: nat :: k < |headers| ==>
         && Inside(headers[k], |raw|)
         && headers[k] == Header(SegmentKind(raw, k), SegmentOffset(raw, k), SegmentAddress(raw, k),
                                 SegmentSize(raw, k))
  }

  lemma HeaderInNumbers(raw: seq<byte>, k: nat)
    requires |raw| >= 64 && TableInside(raw) && k < U16(raw, 56)
    ensures HeadersOf(raw)[k] == Header(SegmentKind(raw, k), SegmentOffset(raw, k), SegmentAddress(raw, k),
                                        SegmentSize(raw, k))
  {
    hide U16, U32, U64;
    assert 56 * k + 56 <= 56 * U16(raw, 56);
  }

  lemma FileInNumbers(raw: seq<byte>, arch: Architecture)
    ensures Framed(raw, arch) <==> FileLaidOut(raw, match arch case X8664 => 62 case AArch64 => 183)
    ensures Framed(raw, arch) ==> Mirrors(raw, HeadersOf(raw))
  {
    if |raw| >= 64 && TableInside(raw) {
      forall k: nat | k < U16(raw, 56)
        ensures HeadersOf(raw)[k] == Header(SegmentKind(raw, k), SegmentOffset(raw, k), SegmentAddress(raw, k),
                                            SegmentSize(raw, k))
      {
        HeaderInNumbers(raw, k);
      }
      hide HeadersOf, SegmentKind, SegmentOffset, SegmentSize, SegmentAddress, U16, U64;
    }
  }

  lemma LoaderInNumbers(raw: seq<byte>, arch: Architecture, headers: seq<Header>, i: nat, d: nat)
    requires Mirrors(raw, headers)
    ensures Loads(raw, arch, headers, i, d) <==>
            LoaderLaidOut(raw, match arch case X8664 => Ascii("/lib/ld-musl-x86_64.so.1")
                                          case AArch64 => Ascii("/lib/ld-musl-aarch64.so.1"), i, d)
  {
    hide SegmentKind, SegmentOffset, SegmentSize, SegmentAddress, U16, Ascii;
    assert forall k: nat :: k < |headers| ==> OfKind(headers, 3)[k] == (SegmentKind(raw, k) == 3);
    assert forall k: nat :: k < |headers| ==> OfKind(headers, 2)[k] == (SegmentKind(raw, k) == 2);
    OnlyIff(OfKind(headers, 3), i);
    OnlyIff(OfKind(headers, 2), d);
    hide OfKind, Only;
  }

  lemma OnlyIff(marks: seq<bool>, i: nat)
    ensures Only(marks, i) <==> i < |marks| && forall k: nat :: k < |marks| ==> (marks[k] <==> k == i)
  {
  }

  lemma BothIff(marks: seq<bool>, i: nat, j: nat)
    ensures Both(marks, i, j) <==>
            i < j < |marks| && forall k: nat :: k < |marks| ==> (marks[k] <==> k == i || k == j)
  {
  }

  lemma EntriesInNumbers(raw: seq<byte>, headers: seq<Header>, d: nat)
    requires Mirrors(raw, headers) && d < |headers| && headers[d].size % 16 == 0
    ensures forall k: nat :: k < headers[d].size / 16 ==>
              EntriesOf(raw, headers[d])[k] == Entry(EntryTag(raw, d, k), EntryValue(raw, d, k))
  {
    hide SegmentKind, SegmentOffset, SegmentSize, SegmentAddress, U16, U64;
  }

  lemma TableInNumbers(raw: seq<byte>, headers: seq<Header>, entries: seq<Entry>, p: Parts)
    requires Mirrors(raw, headers) && p.dynamic < |headers| && |entries| == SegmentSize(raw, p.dynamic) / 16
    requires forall k: nat :: k < |entries| ==>
               entries[k] == Entry(EntryTag(raw, p.dynamic, k), EntryValue(raw, p.dynamic, k))
    ensures Links(headers, entries, p) <==> TableLaidOut(raw, p)
  {
    hide SegmentKind, SegmentOffset, SegmentSize, SegmentAddress, EntryTag, EntryValue, U16;
    var d := p.dynamic;
    assert forall k: nat :: k < |entries| ==> Tagged(entries, 5)[k] == (EntryTag(raw, d, k) == 5);
    assert forall k: nat :: k < |entries| ==> Tagged(entries, 10)[k] == (EntryTag(raw, d, k) == 10);
    assert forall k: nat :: k < |entries| ==> Tagged(entries, 1)[k] == (EntryTag(raw, d, k) == 1);
    OnlyIff(Tagged(entries, 5), p.table);
    OnlyIff(Tagged(entries, 10), p.length);
    BothIff(Tagged(entries, 1), p.first, p.second);
    if p.table < |entries| && p.length < |entries| {
      var address, size := entries[p.table].value, entries[p.length].value;
      forall k: nat | k < |headers|
        ensures Covering(headers, address, size)[k] <==>
                && SegmentKind(raw, k) == 1 && SegmentAddress(raw, k) <= address
                && address + size <= SegmentAddress(raw, k) + SegmentSize(raw, k)
      {
      }
      OnlyIff(Covering(headers, address, size), p.load);
    }
    hide Tagged, Covering, Only, Both;
  }

  /** An image is read in a certain way exactly if it is laid out so. */
  lemma ReadsInNumbers(raw: seq<byte>, arch: Architecture, p: Parts)
    ensures Reads(raw, arch, p) <==>
            match arch
            case X8664 => LaidOut(raw, 62, Ascii("/lib/ld-musl-x86_64.so.1"), p)
            case AArch64 => LaidOut(raw, 183, Ascii("/lib/ld-musl-aarch64.so.1"), p)
  {
    FileInNumbers(raw, arch);
    if Framed(raw, arch) {
      var headers := HeadersOf(raw);
      hide U16, U32, U64, Ascii, IsName, HeadersOf, Framed, FileLaidOut, Loads, LoaderLaidOut, Links, TableLaidOut;
      hide SegmentKind, SegmentOffset, SegmentSize, SegmentAddress, EntryTag, EntryValue;
      LoaderInNumbers(raw, arch, headers, p.interpreter, p.dynamic);
      if Loads(raw, arch, headers, p.interpreter, p.dynamic) {
        DynamicIsBounded(raw, arch, headers, p.interpreter, p.dynamic);
        var entries := EntriesOf(raw, headers[p.dynamic]);
        EntriesInNumbers(raw, headers, p.dynamic);
        TableInNumbers(raw, headers, entries, p);
        hide EntriesOf;
        if Links(headers, entries, p) { NamesInNumbers(raw, headers, entries, p); }
      }
    }
  }

  lemma DynamicIsBounded(raw: seq<byte>, arch: Architecture, headers: seq<Header>, i: nat, d: nat)
    requires Loads(raw, arch, headers, i, d)
    ensures d < |headers| && headers[d].size % 16 == 0
  {
    hide Ascii;
  }

  lemma NamesInNumbers(raw: seq<byte>, headers: seq<Header>, entries: seq<Entry>, p: Parts)
    requires Mirrors(raw, headers) && p.dynamic < |headers| && Links(headers, entries, p)
    requires forall k: nat :: k < |entries| ==>
               entries[k] == Entry(EntryTag(raw, p.dynamic, k), EntryValue(raw, p.dynamic, k))
    ensures Covering(headers, entries[p.table].value, entries[p.length].value)[p.load]
    ensures NamesLaidOut(raw, p) <==>
            Runtime(Strings(raw, headers[p.load], entries[p.table].value, entries[p.length].value),
                    entries[p.first].value, entries[p.second].value)
  {
    hide SegmentKind, SegmentOffset, SegmentSize, SegmentAddress, EntryTag, EntryValue, U16, IsName, Ascii;
    TableLiesInTheSegment(raw, headers, p.load, entries[p.table].value, entries[p.length].value);
  }

  // ---------------------------------------------------------------- an independent writer

  /** Numbers with the least significant byte first. */
  function Two(v: nat): seq<byte> {
    [v % 0x100, v / 0x100 % 0x100]
  }

  function Four(v: nat): seq<byte> {
    [v % 0x100, v / 0x100 % 0x100, v / 0x1_0000 % 0x100, v / 0x100_0000 % 0x100]
  }

  function Eight(v: nat): seq<byte> {
    [v % 0x100, v / 0x100 % 0x100, v / 0x1_0000 % 0x100, v / 0x100_0000 % 0x100,
     v / 0x1_0000_0000 % 0x100, v / 0x100_0000_0000 % 0x100, v / 0x1_0000_0000_0000 % 0x100,
     v / 0x100_0000_0000_0000 % 0x100]
  }

  /** The bytes of `piece` stand in the image at `at`. */
  predicate Holds(raw: seq<byte>, at: nat, piece: seq<byte>) {
    at + |piece| <= |raw| && forall i :: 0 <= i < |piece| ==> raw[at + i] == piece[i]
  }

  lemma TwoReadBack(raw: seq<byte>, at: nat, v: nat)
    requires Holds(raw, at, Two(v)) && v < 0x1_0000
    ensures U16(raw, at) == v
  {
    assert raw[at + 0] == Two(v)[0] && raw[at + 1] == Two(v)[1];
  }

  lemma FourReadBack(raw: seq<byte>, at: nat, v: nat)
    requires Holds(raw, at, Four(v)) && v < 0x1_0000_0000
    ensures U32(raw, at) == v
  {
    assert raw[at + 0] == Four(v)[0] && raw[at + 1] == Four(v)[1];
    assert raw[at + 2] == Four(v)[2] && raw[at + 3] == Four(v)[3];
  }

  lemma LowHalf(high: nat, low: nat)
    requires low < 0x1_0000_0000
    ensures var v := 0x1_0000_0000 * high + low;
            && v / 0x100 == 0x100 * (0x1_0000 * high) + low / 0x100
            && v / 0x1_0000 == 0x100 * (0x100 * high) + low / 0x1_0000
            && v / 0x100_0000 == 0x100 * high + low / 0x100_0000
  {
  }

  lemma LowByte(k: nat, y: nat)
    ensures (0x100 * k + y) % 0x100 == y % 0x100
  {
  }

  lemma HighHalf(high: nat, low: nat)
    requires low < 0x1_0000_0000
    ensures var v := 0x1_0000_0000 * high + low;
            && v / 0x1_0000_0000 == high && v / 0x100_0000_0000 == high / 0x100
            && v / 0x1_0000_0000_0000 == high / 0x1_0000 && v / 0x100_0000_0000_0000 == high / 0x100_0000
  {
  }

  lemma EightIsTwiceFour(v: nat)
    ensures Eight(v) == Four(v % 0x1_0000_0000) + Four(v / 0x1_0000_0000)
  {
    var low, high := v % 0x1_0000_0000, v / 0x1_0000_0000;
    assert v == 0x1_0000_0000 * high + low;
    LowHalf(high, low);
    LowByte(0x100_0000 * high, low);
    LowByte(0x1_0000 * high, low / 0x100);
    LowByte(0x100 * high, low / 0x1_0000);
    LowByte(high, low / 0x100_0000);
    HighHalf(high, low);
  }

  lemma HoldsParts(raw: seq<byte>, at: nat, a: seq<byte>, b: seq<byte>)
    requires Holds(raw, at, a + b)
    ensures Holds(raw, at, a) && Holds(raw, at + |a|, b)
  {
    forall i | 0 <= i < |a| ensures raw[at + i] == a[i] { assert (a + b)[i] == a[i]; }
    forall i | 0 <= i < |b| ensures raw[at + |a| + i] == b[i] {
      assert (a + b)[|a| + i] == b[i] && raw[at + (|a| + i)] == (a + b)[|a| + i];
    }
  }

  lemma EightReadBack(raw: seq<byte>, at: nat, v: nat)
    requires Holds(raw, at, Eight(v)) && v < 0x1_0000_0000_0000_0000
    ensures U64(raw, at) == v
  {
    hide Eight, Four;
    EightIsTwiceFour(v);
    HoldsParts(raw, at, Four(v % 0x1_0000_0000), Four(v / 0x1_0000_0000));
    assert |Four(v % 0x1_0000_0000)| == 4 by { FourBytes(v % 0x1_0000_0000); }
    FourReadBack(raw, at, v % 0x1_0000_0000);
    FourReadBack(raw, at + 4, v / 0x1_0000_0000);
  }

  lemma FourBytes(v: nat)
    ensures |Four(v)| == 4
  {
  }

  /** A program header of the System V gABI, chapter 5, and what becomes of it in a file. */
  datatype Segment = Segment(kind: nat, flags: nat, offset: nat, address: nat, physical: nat, size: nat, memory: nat,
                             align: nat)

  predicate Wide(v: nat) { v < 0x1_0000_0000_0000_0000 }

  predicate Encodable(g: Segment) {
    g.kind < 0x1_0000_0000 && Wide(g.offset) && Wide(g.address) && Wide(g.size)
  }

  function SegmentBytes(g: Segment): (r: seq<byte>)
    ensures |r| == 56
  {
    Four(g.kind) + Four(g.flags) + Eight(g.offset) + Eight(g.address) + Eight(g.physical) + Eight(g.size)
    + Eight(g.memory) + Eight(g.align)
  }

  lemma SegmentReadBack(raw: seq<byte>, at: nat, g: Segment)
    requires Encodable(g) && Holds(raw, at, SegmentBytes(g))
    ensures at + 56 <= |raw| && HeaderAt(raw, at) == Header(g.kind, g.offset, g.address, g.size)
  {
    var b := SegmentBytes(g);
    assert b[..4] == Four(g.kind) && b[8..16] == Eight(g.offset) && b[16..24] == Eight(g.address);
    assert b[32..40] == Eight(g.size);
    hide SegmentBytes, Four, Eight;
    HoldsSlice(raw, at, b, 0, 4);
    HoldsSlice(raw, at, b, 8, 16);
    HoldsSlice(raw, at, b, 16, 24);
    HoldsSlice(raw, at, b, 32, 40);
    FourReadBack(raw, at, g.kind);
    EightReadBack(raw, at + 8, g.offset);
    EightReadBack(raw, at + 16, g.address);
    EightReadBack(raw, at + 32, g.size);
  }

  lemma HoldsSlice(raw: seq<byte>, at: nat, b: seq<byte>, first: nat, last: nat)
    requires Holds(raw, at, b) && first <= last <= |b|
    ensures Holds(raw, at + first, b[first..last])
  {
    forall i | 0 <= i < last - first ensures raw[at + first + i] == b[first..last][i] {
      assert raw[at + (first + i)] == b[first + i];
    }
  }

  function SegmentTable(gs: seq<Segment>): (r: seq<byte>)
    ensures |r| == 56 * |gs|
  {
    if gs == [] then [] else SegmentTable(gs[..|gs| - 1]) + SegmentBytes(gs[|gs| - 1])
  }

  lemma {:induction false} SegmentsReadBack(raw: seq<byte>, at: nat, gs: seq<Segment>, k: nat)
    requires Holds(raw, at, SegmentTable(gs)) && k < |gs| && Encodable(gs[k])
    ensures at + 56 * k + 56 <= |raw|
    ensures HeaderAt(raw, at + 56 * k) == Header(gs[k].kind, gs[k].offset, gs[k].address, gs[k].size)
  {
    hide SegmentBytes, HeaderAt;
    var n := |gs| - 1;
    HoldsParts(raw, at, SegmentTable(gs[..n]), SegmentBytes(gs[n]));
    if k < n { SegmentsReadBack(raw, at, gs[..n], k); } else { SegmentReadBack(raw, at + 56 * n, gs[n]); }
  }

  function EntryTable(entries: seq<Entry>): (r: seq<byte>)
    ensures |r| == 16 * |entries|
  {
    if entries == [] then []
    else
      var e := entries[|entries| - 1];
      EntryTable(entries[..|entries| - 1]) + Eight(e.tag) + Eight(e.value)
  }

  lemma {:induction false} EntriesReadBack(raw: seq<byte>, at: nat, entries: seq<Entry>, k: nat)
    requires Holds(raw, at, EntryTable(entries)) && k < |entries| && Wide(entries[k].tag) && Wide(entries[k].value)
    ensures at + 16 * k + 16 <= |raw|
    ensures Entry(U64(raw, at + 16 * k), U64(raw, at + 16 * k + 8)) == entries[k]
  {
    var n := |entries| - 1;
    var front, e := EntryTable(entries[..n]), entries[n];
    assert |Eight(e.tag)| == |Eight(e.value)| == 8;
    hide Eight, U64;
    HoldsParts(raw, at, front + Eight(e.tag), Eight(e.value));
    HoldsParts(raw, at, front, Eight(e.tag));
    if k < n {
      EntriesReadBack(raw, at, entries[..n], k);
    } else {
      EightReadBack(raw, at + 16 * n, e.tag);
      EightReadBack(raw, at + 16 * n + 8, e.value);
    }
  }

  /** What a writer puts into the table of dynamic entries is what is read out of it. */
  lemma EntriesRoundTrip(raw: seq<byte>, h: Header, entries: seq<Entry>)
    requires Inside(h, |raw|) && h.size == 16 * |entries| && Holds(raw, h.offset, EntryTable(entries))
    requires forall k :: 0 <= k < |entries| ==> Wide(entries[k].tag) && Wide(entries[k].value)
    ensures EntriesOf(raw, h) == entries
  {
    hide Holds, U64, EntryTable, Wide;
    var read := EntriesOf(raw, h);
    assert |read| == |entries|;
    forall k | 0 <= k < |entries| ensures read[k] == entries[k] {
      EntriesReadBack(raw, h.offset, entries, k);
      EntryRead(raw, h, k);
    }
  }

  lemma EntryRead(raw: seq<byte>, h: Header, k: nat)
    requires Inside(h, |raw|) && h.size % 16 == 0 && k < h.size / 16
    ensures EntriesOf(raw, h)[k] == Entry(U64(raw, h.offset + 16 * k), U64(raw, h.offset + 16 * k + 8))
  {
  }

  /** The ELF header (chapter 4): six fixed bytes and ten free ones, then type, machine, version, entry, phoff, shoff,
      flags, ehsize, phentsize, phnum and the three section fields. */
  datatype Front = Front(free: seq<byte>, kind: nat, machine: nat, entry: nat, phoff: nat, shoff: nat, flags: nat,
                         ehsize: nat, phentsize: nat, phnum: nat, sections: seq<byte>)

  function FrontBytes(f: Front): (r: seq<byte>)
    requires |f.free| == 10 && |f.sections| == 6
    ensures |r| == 64
  {
    [0x7f, 0x45, 0x4c, 0x46, 2, 1] + f.free + Two(f.kind) + Two(f.machine) + Four(1) + Eight(f.entry) + Eight(f.phoff)
    + Eight(f.shoff) + Four(f.flags) + Two(f.ehsize) + Two(f.phentsize) + Two(f.phnum) + f.sections
  }

  lemma FrontReadBack(raw: seq<byte>, f: Front)
    requires |f.free| == 10 && |f.sections| == 6 && Holds(raw, 0, FrontBytes(f))
    requires f.kind < 0x1_0000 && f.machine < 0x1_0000 && Wide(f.phoff) && f.phentsize < 0x1_0000 && f.phnum < 0x1_0000
    ensures |raw| >= 64 && raw[..6] == [0x7f, 0x45, 0x4c, 0x46, 2, 1]
    ensures U16(raw, 16) == f.kind && U16(raw, 18) == f.machine && U64(raw, 32) == f.phoff
    ensures U16(raw, 54) == f.phentsize && U16(raw, 56) == f.phnum
  {
    var b := FrontBytes(f);
    assert b[0..6] == [0x7f, 0x45, 0x4c, 0x46, 2, 1] && b[16..18] == Two(f.kind) && b[18..20] == Two(f.machine);
    assert b[32..40] == Eight(f.phoff) && b[54..56] == Two(f.phentsize) && b[56..58] == Two(f.phnum);
    hide FrontBytes, Two, Eight, Four;
    HoldsSlice(raw, 0, b, 0, 6);
    HoldsSlice(raw, 0, b, 16, 18);
    HoldsSlice(raw, 0, b, 18, 20);
    HoldsSlice(raw, 0, b, 32, 40);
    HoldsSlice(raw, 0, b, 54, 56);
    HoldsSlice(raw, 0, b, 56, 58);
    TwoReadBack(raw, 16, f.kind);
    TwoReadBack(raw, 18, f.machine);
    EightReadBack(raw, 32, f.phoff);
    TwoReadBack(raw, 54, f.phentsize);
    TwoReadBack(raw, 56, f.phnum);
    assert forall i :: 0 <= i < 6 ==> raw[..6][i] == b[0..6][i] by {
      assert forall i :: 0 <= i < 6 ==> raw[0 + i] == b[i];
    }
  }

  /** An image whose bytes hold a header and a table of segments inside it is read as exactly these segments; it is
      accepted as far as this exactly for a known type and the right machine. */
  lemma HeadersRoundTrip(raw: seq<byte>, arch: Architecture, f: Front, gs: seq<Segment>)
    requires |f.free| == 10 && |f.sections| == 6 && Holds(raw, 0, FrontBytes(f))
    requires f.kind < 0x1_0000 && f.machine < 0x1_0000 && Wide(f.phoff) && f.phentsize == 56
    requires f.phnum == |gs| <= 64 && gs != []
    requires Holds(raw, f.phoff, SegmentTable(gs)) && forall k :: 0 <= k < |gs| ==> Encodable(gs[k])
    ensures |raw| >= 64 && TableInside(raw) && |HeadersOf(raw)| == |gs|
    ensures forall k :: 0 <= k < |gs| ==>
              HeadersOf(raw)[k] == Header(gs[k].kind, gs[k].offset, gs[k].address, gs[k].size)
    ensures Framed(raw, arch) <==>
            && f.kind in {2, 3} && f.machine == (match arch case X8664 => 62 case AArch64 => 183)
            && forall k :: 0 <= k < |gs| ==> gs[k].offset + gs[k].size <= |raw|
  {
    hide Holds, FrontBytes, SegmentTable, HeaderAt;
    FrontReadBack(raw, f);
    TableReadBack(raw, f.phoff, gs);
    hide *;
    HeadersAreRead(raw, f.phoff, gs);
    FramedInFields(raw, arch, f, gs);
  }

  ghost predicate ReadAt(raw: seq<byte>, at: nat, g: Segment) {
    at + 56 <= |raw| && HeaderAt(raw, at) == Header(g.kind, g.offset, g.address, g.size)
  }

  ghost predicate ReadAs(raw: seq<byte>, at: nat, gs: seq<Segment>) {
    forall k: nat :: k < |gs| ==> ReadAt(raw, at + 56 * k, gs[k])
  }

  lemma TableReadBack(raw: seq<byte>, at: nat, gs: seq<Segment>)
    requires Holds(raw, at, SegmentTable(gs)) && forall k :: 0 <= k < |gs| ==> Encodable(gs[k])
    ensures ReadAs(raw, at, gs)
  {
    hide SegmentTable, HeaderAt, Encodable, Holds, ReadAt;
    forall k: nat | k < |gs| ensures ReadAt(raw, at + 56 * k, gs[k]) {
      OneReadBack(raw, at, gs, k);
    }
  }

  lemma OneReadBack(raw: seq<byte>, at: nat, gs: seq<Segment>, k: nat)
    requires Holds(raw, at, SegmentTable(gs)) && k < |gs| && Encodable(gs[k])
    ensures ReadAt(raw, at + 56 * k, gs[k])
  {
    hide SegmentTable, HeaderAt, Encodable, Holds;
    SegmentsReadBack(raw, at, gs, k);
  }

  lemma HeadersAreRead(raw: seq<byte>, at: nat, gs: seq<Segment>)
    requires |raw| >= 64 && U64(raw, 32) == at && U16(raw, 54) == 56 && U16(raw, 56) == |gs| && 1 <= |gs| <= 64
    requires ReadAs(raw, at, gs)
    ensures TableInside(raw) && |HeadersOf(raw)| == |gs|
    ensures forall k :: 0 <= k < |gs| ==>
              HeadersOf(raw)[k] == Header(gs[k].kind, gs[k].offset, gs[k].address, gs[k].size)
  {
    hide HeaderAt, U64, U16;
    assert ReadAt(raw, at + 56 * (|gs| - 1), gs[|gs| - 1]);
    forall k | 0 <= k < |gs|
      ensures HeadersOf(raw)[k] == Header(gs[k].kind, gs[k].offset, gs[k].address, gs[k].size)
    {
      assert ReadAt(raw, at + 56 * k, gs[k]);
    }
  }

  lemma FramedInFields(raw: seq<byte>, arch: Architecture, f: Front, gs: seq<Segment>)
    requires |raw| >= 64 && raw[..6] == [0x7f, 0x45, 0x4c, 0x46, 2, 1] && TableInside(raw)
    requires U16(raw, 16) == f.kind && U16(raw, 18) == f.machine && |HeadersOf(raw)| == |gs|
    requires forall k :: 0 <= k < |gs| ==>
               HeadersOf(raw)[k] == Header(gs[k].kind, gs[k].offset, gs[k].address, gs[k].size)
    ensures Framed(raw, arch) <==>
            && f.kind in {2, 3} && f.machine == (match arch case X8664 => 62 case AArch64 => 183)
            && forall k :: 0 <= k < |gs| ==> gs[k].offset + gs[k].size <= |raw|
  {
    hide HeaderAt, U64, U16, HeadersOf, TableInside;
  }
}
