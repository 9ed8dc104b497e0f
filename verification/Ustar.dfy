/** The ustar interchange format (IEEE Std 1003.1-2017, pax utility): a step-by-step writer of plain files,
    its length in closed form, and an independent reader. */
module Ustar {
  import opened Collections
  import opened Wrappers

  datatype Member = Member(name: seq<byte>, body: seq<byte>)

  const BLOCK := 512
  const RECORD := 10240

  function Zeros(n: nat): (r: seq<byte>)
    ensures |r| == n
  {
    seq(n, i => 0)
  }

  // ---------------------------------------------------------------- octal fields

  function Pow8(k: nat): (r: nat)
    ensures r >= 1
  {
    if k == 0 then 1 else 8 * Pow8(k - 1)
  }

  function Octal(n: nat, k: nat): (r: seq<byte>)
    ensures |r| == k && forall i :: 0 <= i < |r| ==> 48 <= r[i] <= 55
  {
    if k == 0 then [] else Octal(n / 8, k - 1) + [48 + n % 8]
  }

  predicate Digits(s: seq<byte>) {
    forall i :: 0 <= i < |s| ==> 48 <= s[i] <= 55
  }

  function FromOctal(s: seq<byte>): nat
    requires Digits(s)
  {
    if s == [] then 0 else 8 * FromOctal(s[..|s| - 1]) + (s[|s| - 1] - 48)
  }

  lemma {:induction false} OctalRoundTrip(n: nat, k: nat)
    requires n < Pow8(k)
    ensures FromOctal(Octal(n, k)) == n
  {
    if k > 0 {
      OctalRoundTrip(n / 8, k - 1);
      assert Octal(n, k)[..k - 1] == Octal(n / 8, k - 1);
    }
  }

  lemma ElevenDigits()
    ensures Pow8(11) == 0x2_0000_0000
  {
    assert Pow8(4) == 4096;
    assert Pow8(8) == 0x100_0000;
  }

  // ---------------------------------------------------------------- headers

  function Padded(name: seq<byte>): (r: seq<byte>)
    requires |name| <= 100
    ensures |r| == 100
  {
    name + Zeros(100 - |name|)
  }

  /** Mode 0644 and zero owner and group, then the size, then a zero time. */
  function Front(name: seq<byte>, size: nat): (r: seq<byte>)
    requires |name| <= 100
    ensures |r| == 148
  {
    Padded(name) + (Octal(420, 7) + [0] + Octal(0, 7) + [0] + Octal(0, 7) + [0])
    + (Octal(size, 11) + [0]) + (Octal(0, 11) + [0])
  }

  /** Regular file, no link name, magic and version, no owner names, devices or prefix. */
  function Back(): (r: seq<byte>)
    ensures |r| == 356
  {
    [48] + Zeros(100) + [117, 115, 116, 97, 114, 0, 48, 48] + Zeros(247)
  }

  function Sum(s: seq<byte>): (r: nat)
  {
    if s == [] then 0 else Sum(s[..|s| - 1]) + s[|s| - 1]
  }

  /** The checksum counts its own field as eight spaces. */
  function Check(front: seq<byte>, back: seq<byte>): nat {
    Sum(front) + 256 + Sum(back)
  }

  function HeaderBytes(name: seq<byte>, size: nat): (r: seq<byte>)
    requires |name| <= 100
    ensures |r| == BLOCK
  {
    var front := Front(name, size);
    front + (Octal(Check(front, Back()), 6) + [0, 32]) + Back()
  }

  function UpToZero(s: seq<byte>): seq<byte> {
    if s == [] || s[0] == 0 then [] else [s[0]] + UpToZero(s[1..])
  }

  /** Reads the name and size of a header block, if its checksum and size field are sound. */
  function ReadHeader(b: seq<byte>): Option<(seq<byte>, nat)>
    requires |b| == BLOCK
  {
    if Digits(b[124..135]) && b[148..156] == Octal(Check(b[..148], b[156..]), 6) + [0, 32]
    then Some((UpToZero(b[..100]), FromOctal(b[124..135])))
    else None
  }

  ghost predicate Storable(m: Member) {
    1 <= |m.name| <= 100 && 0 !in m.name && |m.body| < Pow8(11)
  }

  lemma {:induction false} UpToZeroOfPadded(name: seq<byte>, n: nat)
    requires 0 !in name
    ensures UpToZero(name + Zeros(n)) == name
  {
    if name != [] {
      UpToZeroOfPadded(name[1..], n);
      assert (name + Zeros(n))[1..] == name[1..] + Zeros(n);
      assert name[0] in name;
    }
  }

  lemma FrontFields(name: seq<byte>, size: nat)
    requires |name| <= 100
    ensures Front(name, size)[..100] == Padded(name) && Front(name, size)[124..135] == Octal(size, 11)
  {
    var owner := Octal(420, 7) + [0] + Octal(0, 7) + [0] + Octal(0, 7) + [0];
    var f := Padded(name) + owner + (Octal(size, 11) + [0]) + (Octal(0, 11) + [0]);
    assert |owner| == 24 && f == Front(name, size);
    assert f[124..136] == Octal(size, 11) + [0];
    assert f[124..135] == f[124..136][..11];
  }

  lemma HeaderRoundTrip(m: Member)
    requires Storable(m)
    ensures ReadHeader(HeaderBytes(m.name, |m.body|)) == Some((m.name, |m.body|))
    ensures HeaderBytes(m.name, |m.body|)[0] != 0
  {
    hide Front, Check, Back;
    var front := Front(m.name, |m.body|);
    var field := Octal(Check(front, Back()), 6) + [0, 32];
    var b := HeaderBytes(m.name, |m.body|);
    assert b == front + field + Back();
    assert b[..148] == front && b[148..156] == field && b[156..] == Back();
    FrontFields(m.name, |m.body|);
    assert b[..100] == front[..100] && b[124..135] == front[124..135];
    UpToZeroOfPadded(m.name, 100 - |m.name|);
    OctalRoundTrip(|m.body|, 11);
    assert b[0] == m.name[0] && m.name[0] in m.name;
  }

  // ---------------------------------------------------------------- the header, field by field

  lemma {:induction false} SumAppends(a: seq<byte>, b: seq<byte>)
    ensures Sum(a + b) == Sum(a) + Sum(b)
  {
    if b == [] {
      assert a + b == a;
    } else {
      assert (a + b)[..|a + b| - 1] == a + b[..|b| - 1];
      SumAppends(a, b[..|b| - 1]);
    }
  }

  lemma {:induction false} SumIsBounded(s: seq<byte>)
    ensures Sum(s) <= 255 * |s|
  {
    if s != [] { SumIsBounded(s[..|s| - 1]); }
  }

  lemma EightSpaces()
    ensures Sum([32, 32, 32, 32, 32, 32, 32, 32]) == 256
  {
    var four: seq<byte> := [32, 32, 32, 32];
    assert four[..3] == [32, 32, 32] && four[..3][..2] == [32, 32] && four[..3][..2][..1] == [32];
    assert Sum([32]) == 32 && Sum([32, 32]) == 64 && Sum([32, 32, 32]) == 96 && Sum(four) == 128;
    SumAppends(four, four);
    assert four + four == [32, 32, 32, 32, 32, 32, 32, 32];
  }

  /** The checksum field holds, in octal, the sum of all bytes of the block, its own field counted as eight spaces. */
  lemma ChecksumIsByteSum(name: seq<byte>, size: nat)
    requires |name| <= 100
    ensures var b := HeaderBytes(name, size);
            && Digits(b[148..154]) && b[154..156] == [0, 32]
            && FromOctal(b[148..154]) == Sum(b[..148] + [32, 32, 32, 32, 32, 32, 32, 32] + b[156..])
  {
    hide Front, Back;
    var front, back := Front(name, size), Back();
    var b := HeaderBytes(name, size);
    var spaces: seq<byte> := [32, 32, 32, 32, 32, 32, 32, 32];
    assert b[..148] == front && b[156..] == back;
    assert b[148..154] == Octal(Check(front, back), 6) && b[154..156] == [0, 32];
    EightSpaces();
    SumAppends(front, spaces);
    SumAppends(front + spaces, back);
    SumIsBounded(front);
    SumIsBounded(back);
    assert Pow8(6) == 262144 by { assert Pow8(3) == 512; }
    OctalRoundTrip(Check(front, back), 6);
  }

  /** The other fields of a header: mode 0644, owner, group and time zero, a regular file without a link name, the
      magic and version of ustar, and zeros to the end. */
  lemma HeaderLayout(name: seq<byte>, size: nat)
    requires |name| <= 100
    ensures var b := HeaderBytes(name, size);
            && b[..|name|] == name && (forall i :: |name| <= i < 100 ==> b[i] == 0)
            && b[100..108] == Ascii("0000644") + [0]
            && b[108..116] == b[116..124] == Ascii("0000000") + [0]
            && Digits(b[124..135]) && b[135] == 0 && (size < Pow8(11) ==> FromOctal(b[124..135]) == size)
            && b[136..148] == Ascii("00000000000") + [0]
            && b[156..157] == Ascii("0") && (forall i :: 157 <= i < 257 ==> b[i] == 0)
            && b[257..265] == Ascii("ustar") + [0] + Ascii("00") && forall i :: 265 <= i < 512 ==> b[i] == 0
  {
    var front, back := Front(name, size), Back();
    var b := HeaderBytes(name, size);
    assert forall i :: 0 <= i < 148 ==> b[i] == front[i];
    assert forall i :: 156 <= i < 512 ==> b[i] == back[i - 156];
    FrontLayout(name, size);
    BackLayout();
    hide Front, Back, HeaderBytes, FromOctal, Octal, Ascii, Digits, Pow8;
    assert b[100..108] == front[100..108] && b[108..116] == front[108..116] && b[116..124] == front[116..124];
    assert b[124..135] == front[124..135] && b[136..148] == front[136..148];
    assert b[156..157] == back[..1] && b[257..265] == back[101..109];
  }

  lemma FrontLayout(name: seq<byte>, size: nat)
    requires |name| <= 100
    ensures var f := Front(name, size);
            && f[..|name|] == name && (forall i :: |name| <= i < 100 ==> f[i] == 0)
            && f[100..108] == Ascii("0000644") + [0]
            && f[108..116] == f[116..124] == Ascii("0000000") + [0]
            && Digits(f[124..135]) && f[135] == 0 && (size < Pow8(11) ==> FromOctal(f[124..135]) == size)
            && f[136..148] == Ascii("00000000000") + [0]
  {
    var mode, none, time := Octal(420, 7) + [0], Octal(0, 7) + [0], Octal(0, 11) + [0];
    ModeIs0644();
    ZerosInOctal();
    if size < Pow8(11) { OctalRoundTrip(size, 11); }
    hide Octal, Ascii, FromOctal, Padded;
    OwnerFields(Octal(420, 7), Octal(0, 7));
    FrontParts(Front(name, size), Padded(name), mode, none, Octal(size, 11), time);
    hide Front;
    var f := Front(name, size);
    NameIsPadded(name);
    assert f[..100][..|name|] == f[..|name|];
    assert forall i :: 0 <= i < 100 ==> f[..100][i] == f[i];
  }

  lemma NameIsPadded(name: seq<byte>)
    requires |name| <= 100
    ensures Padded(name)[..|name|] == name && forall i :: |name| <= i < 100 ==> Padded(name)[i] == 0
  {
  }

  lemma OwnerFields(a: seq<byte>, b: seq<byte>)
    ensures a + [0] + b + [0] + b + [0] == (a + [0]) + (b + [0]) + (b + [0])
  {
  }

  lemma FrontParts(f: seq<byte>, name: seq<byte>, mode: seq<byte>, none: seq<byte>, size: seq<byte>, time: seq<byte>)
    requires |name| == 100 && |mode| == |none| == 8 && |size| == 11 && |time| == 12
    requires f == name + (mode + none + none) + (size + [0]) + time
    ensures f[..100] == name && f[100..108] == mode && f[108..116] == none && f[116..124] == none
    ensures f[124..135] == size && f[135] == 0 && f[136..148] == time
  {
  }

  lemma ModeIs0644()
    ensures Octal(420, 7) == Ascii("0000644")
  {
    hide Octal;
    OctalDigit(420, 7);
    OctalDigit(52, 6);
    OctalDigit(6, 5);
    OctalOfZero(4);
    EndsIn644(Octal(420, 7), Octal(0, 4));
  }

  lemma EndsIn644(mode: seq<byte>, zeros: seq<byte>)
    requires mode == zeros + [54] + [52] + [52] && |zeros| == 4 && forall i :: 0 <= i < 4 ==> zeros[i] == 48
    ensures mode == Ascii("0000644")
  {
    var text := "0000644";
    assert text[0] == text[1] == text[2] == text[3] == '0' && text[4] == '6' && text[5] == text[6] == '4';
  }

  lemma OctalDigit(n: nat, k: nat)
    requires k > 0
    ensures Octal(n, k) == Octal(n / 8, k - 1) + [48 + n % 8]
  {
  }

  lemma ZerosInOctal()
    ensures Octal(0, 7) == Ascii("0000000") && Octal(0, 11) == Ascii("00000000000")
  {
    OctalOfZero(7);
    OctalOfZero(11);
    hide Octal;
    assert forall i :: 0 <= i < 11 ==> "00000000000"[i] == '0';
    assert forall i :: 0 <= i < 7 ==> "0000000"[i] == '0';
  }

  lemma {:induction false} OctalOfZero(k: nat)
    ensures forall i :: 0 <= i < k ==> Octal(0, k)[i] == 48
  {
    if k > 0 { OctalOfZero(k - 1); }
  }

  lemma BackLayout()
    ensures var b := Back();
            && b[..1] == Ascii("0") && (forall i :: 1 <= i < 101 ==> b[i] == 0)
            && b[101..109] == Ascii("ustar") + [0] + Ascii("00") && forall i :: 109 <= i < 356 ==> b[i] == 0
  {
  }

  // ---------------------------------------------------------------- the writer

  function RoundUp(n: nat, unit: nat): (r: nat)
    requires unit > 0
  {
    if n % unit == 0 then n else n + (unit - n % unit)
  }

  function MemberBytes(m: Member): seq<byte>
    requires |m.name| <= 100
  {
    HeaderBytes(m.name, |m.body|) + m.body + Zeros(RoundUp(|m.body|, BLOCK) - |m.body|)
  }

  ghost predicate AllStorable(ms: seq<Member>) {
    forall i :: 0 <= i < |ms| ==> Storable(ms[i])
  }

  ghost function Members(ms: seq<Member>): seq<byte>
    requires AllStorable(ms)
  {
    if ms == [] then [] else MemberBytes(ms[0]) + Members(ms[1..])
  }

  /** The zero bytes after the last member. */
  function Trailer(length: nat): (r: nat)
    ensures r >= 1024
  {
    RoundUp(length + 1024, RECORD) - length
  }

  ghost function Archive(ms: seq<Member>): seq<byte>
    requires AllStorable(ms)
  {
    Members(ms) + Zeros(Trailer(|Members(ms)|))
  }

  lemma {:induction false} MembersSnoc(ms: seq<Member>, m: Member)
    requires AllStorable(ms) && Storable(m)
    ensures AllStorable(ms + [m]) && Members(ms + [m]) == Members(ms) + MemberBytes(m)
  {
    if ms == [] {
      assert Members([m]) == MemberBytes(m) + Members([m][1..]);
      assert [] + [m] == [m];
    } else {
      MembersSnoc(ms[1..], m);
      assert (ms + [m])[1..] == ms[1..] + [m];
      var all := ms + [m];
      assert Members(all) == MemberBytes(all[0]) + Members(all[1..]);
    }
  }

  /** Member by member: header, body, padding to a block; then two zero blocks and padding to a record. */
  method Write(ms: seq<Member>) returns (out: seq<byte>)
    requires AllStorable(ms)
    ensures out == Archive(ms)
  {
    hide MemberBytes, HeaderBytes, RoundUp, Trailer, Storable;
    out := [];
    for i := 0 to |ms|
      invariant out == Members(ms[..i])
    {
      MembersSnoc(ms[..i], ms[i]);
      assert ms[..i + 1] == ms[..i] + [ms[i]];
      out := AddFile(out, ms[i]);
    }
    assert ms[..|ms|] == ms;
    out := Close(out);
  }

  method AddFile(before: seq<byte>, m: Member) returns (out: seq<byte>)
    requires Storable(m)
    ensures out == before + MemberBytes(m)
  {
    hide HeaderBytes;
    var header := HeaderBytes(m.name, |m.body|);
    out := before + header;
    out := out + m.body;
    var remainder := |m.body| % BLOCK;
    if remainder > 0 { out := out + Zeros(BLOCK - remainder); }
    assert out == before + (header + m.body + Zeros(RoundUp(|m.body|, BLOCK) - |m.body|));
  }

  method Close(body: seq<byte>) returns (out: seq<byte>)
    ensures out == body + Zeros(Trailer(|body|))
  {
    out := body + Zeros(2 * BLOCK);
    var remainder := |out| % RECORD;
    if remainder > 0 { out := out + Zeros(RECORD - remainder); }
  }

  // ---------------------------------------------------------------- length in closed form

  function Occupied(size: nat): nat {
    512 + (size + 511) / 512 * 512
  }

  function TotalOf(sizes: seq<nat>): nat {
    if sizes == [] then 0 else Occupied(sizes[0]) + TotalOf(sizes[1..])
  }

  function TarBytes(sizes: seq<nat>): nat {
    (TotalOf(sizes) + 1024 + 10239) / 10240 * 10240
  }

  function Sizes(ms: seq<Member>): (r: seq<nat>) {
    seq(|ms|, i requires 0 <= i < |ms| => |ms[i].body|)
  }

  lemma SameTotal(a: seq<nat>, b: seq<nat>)
    requires TotalOf(a) == TotalOf(b)
    ensures TarBytes(a) == TarBytes(b)
  {
  }

  lemma BlocksAreClosed(n: nat)
    ensures RoundUp(n, BLOCK) == (n + 511) / 512 * 512
  {
    var q, r := n / 512, n % 512;
    assert n == 512 * q + r;
    assert (n + 511) / 512 == if r == 0 then q else q + 1;
  }

  lemma RecordsAreClosed(n: nat)
    ensures RoundUp(n, RECORD) == (n + 10239) / 10240 * 10240 >= n
  {
    var q, r := n / 10240, n % 10240;
    assert n == 10240 * q + r;
    assert (n + 10239) / 10240 == if r == 0 then q else q + 1;
  }

  lemma TrailerIsClosed(n: nat)
    ensures n + Trailer(n) == (n + 1024 + 10239) / 10240 * 10240
  {
    RecordsAreClosed(n + 1024);
  }

  lemma {:induction false} MembersLength(ms: seq<Member>)
    requires AllStorable(ms)
    ensures |Members(ms)| == TotalOf(Sizes(ms))
  {
    if ms != [] {
      MembersLength(ms[1..]);
      assert Sizes(ms)[1..] == Sizes(ms[1..]);
      BlocksAreClosed(|ms[0].body|);
    }
  }

  /** The closed formula is the length that the writer produces, for every list of members. */
  lemma LengthIsClosed(ms: seq<Member>)
    requires AllStorable(ms)
    ensures |Archive(ms)| == TarBytes(Sizes(ms))
  {
    hide MemberBytes, RoundUp, Trailer, TotalOf, Members;
    MembersLength(ms);
    TrailerIsClosed(|Members(ms)|);
  }

  // ---------------------------------------------------------------- the reader

  /** Reads members up to the first zero block. */
  function Read(a: seq<byte>): Option<seq<Member>>
    decreases |a|
  {
    if |a| < BLOCK then None
    else if a[..BLOCK] == Zeros(BLOCK) then Some([])
    else
      var header := ReadHeader(a[..BLOCK]);
      if header.None? then None
      else
        var (name, size) := header.value;
        var end := BLOCK + RoundUp(size, BLOCK);
        if |a| < end then None
        else
          var rest := Read(a[end..]);
          if rest.None? then None else Some([Member(name, a[BLOCK..BLOCK + size])] + rest.value)
  }

  /** What the writer wrote, the reader reads back: every name and every byte, in order. */
  lemma RoundTrip(ms: seq<Member>)
    requires AllStorable(ms)
    ensures Read(Archive(ms)) == Some(ms)
  {
    ReadBack(ms, Trailer(|Members(ms)|));
  }

  lemma {:induction false} ReadBack(ms: seq<Member>, tail: nat)
    requires AllStorable(ms) && tail >= BLOCK
    ensures Read(Members(ms) + Zeros(tail)) == Some(ms)
  {
    hide MemberBytes;
    if ms == [] {
      assert Members(ms) + Zeros(tail) == Zeros(tail);
      ReadZeros(tail);
    } else {
      ReadBack(ms[1..], tail);
      var first, others, zeros := MemberBytes(ms[0]), Members(ms[1..]), Zeros(tail);
      OneMember(ms[0], others + zeros);
      Associative(first, others, zeros);
      assert ms == [ms[0]] + ms[1..];
    }
  }

  lemma ReadZeros(tail: nat)
    requires tail >= BLOCK
    ensures Read(Zeros(tail)) == Some([])
  {
    assert Zeros(tail)[..BLOCK] == Zeros(BLOCK);
  }

  lemma Associative(a: seq<byte>, b: seq<byte>, c: seq<byte>)
    ensures (a + b) + c == a + (b + c)
  {
  }

  lemma OneMember(m: Member, rest: seq<byte>)
    requires Storable(m)
    ensures Read(MemberBytes(m) + rest) ==
            if Read(rest).None? then None else Some([m] + Read(rest).value)
  {
    hide HeaderBytes, ReadHeader;
    var header := HeaderBytes(m.name, |m.body|);
    var a := MemberBytes(m) + rest;
    var end := BLOCK + RoundUp(|m.body|, BLOCK);
    HeaderRoundTrip(m);
    assert a[..BLOCK] == header;
    assert a[0] != 0 && Zeros(BLOCK)[0] == 0;
    assert a[..BLOCK] != Zeros(BLOCK) by { assert a[..BLOCK][0] != Zeros(BLOCK)[0]; }
    assert a[BLOCK..BLOCK + |m.body|] == m.body;
    assert a[end..] == rest;
  }
}
