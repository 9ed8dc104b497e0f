/** The URL recogniser of the recovery fetcher and the grammar it accepts. */
module HttpsPolicy {
  import opened Wrappers

  /** The bytes of a C string: anything but the terminator. */
  type letter = x: int | 0 < x < 256 witness 1
  type Text = seq<letter>

  function Scheme(): Text { [104, 116, 116, 112, 115, 58, 47, 47] }

  function CaOption(): Text {
    [45, 45, 99, 97, 45, 99, 101, 114, 116, 105, 102, 105, 99, 97, 116, 101]
  }

  const SLASH: letter := 47
  const COLON: letter := 58
  const PERCENT: letter := 37
  const BACKSLASH: letter := 92
  const HASH: letter := 35

  predicate Digit(c: letter) { 48 <= c <= 57 }

  predicate HostByte(c: letter) {
    97 <= c <= 122 || 65 <= c <= 90 || Digit(c) || c == 46 || c == 45
  }

  function Hex(c: letter): (r: int)
    ensures -1 <= r <= 15
    ensures r == -1 <==> !(Digit(c) || 97 <= c <= 102 || 65 <= c <= 70)
  {
    if Digit(c) then c as int - 48
    else if 97 <= c <= 102 then c as int - 97 + 10
    else if 65 <= c <= 70 then c as int - 65 + 10
    else -1
  }

  // ---------------------------------------------------------------- the grammar

  function Value(digits: Text): int {
    if digits == [] then 0 else Value(digits[..|digits| - 1]) * 10 + (digits[|digits| - 1] as int - 48)
  }

  datatype Url = Url(host: Text, port: Option<Text>, path: Text)

  function Render(u: Url): Text {
    Scheme() + u.host + (if u.port.Some? then [COLON] + u.port.value else []) + [SLASH] + u.path
  }

  ghost predicate HostOk(host: Text) {
    host != [] && forall i :: 0 <= i < |host| ==> HostByte(host[i])
  }

  ghost predicate PortOk(port: Text) {
    1 <= |port| <= 5 && (forall i :: 0 <= i < |port| ==> Digit(port[i])) && 1 <= Value(port) <= 65535
  }

  /** A printable byte that cannot escape its place in the URL. */
  predicate Printable(c: letter) {
    33 <= c <= 126 && c != BACKSLASH && c != HASH
  }

  predicate HarmfulEscape(s: Text, i: nat)
    requires i + 2 < |s|
  {
    && s[i] == PERCENT && Hex(s[i + 1]) >= 0 && Hex(s[i + 2]) >= 0
    && var decoded := 16 * Hex(s[i + 1]) + Hex(s[i + 2]);
       decoded <= 31 || decoded == 127 || decoded == BACKSLASH as int
  }

  ghost predicate Clean(s: Text) {
    && (forall i :: 0 <= i < |s| ==> Printable(s[i]))
    && forall i: nat :: i + 2 < |s| ==> !HarmfulEscape(s, i)
  }

  ghost predicate WellFormed(u: Url) {
    HostOk(u.host) && (u.port.Some? ==> PortOk(u.port.value)) && Clean(Render(u)) && |Render(u)| <= 8192
  }

  ghost predicate InGrammar(s: Text) {
    exists u :: WellFormed(u) && Render(u) == s
  }

  // ---------------------------------------------------------------- the recogniser

  method CleanBytes(s: Text) returns (ok: bool)
    ensures ok <==> Clean(s)
  {
    for i := 0 to |s|
      invariant forall k :: 0 <= k < i ==> Printable(s[k])
      invariant forall k: nat :: k < i && k + 2 < |s| ==> !HarmfulEscape(s, k)
    {
      var ch := s[i];
      if ch <= 32 || ch >= 127 || ch == BACKSLASH || ch == HASH { return false; }
      if ch == PERCENT && i + 2 < |s| {
        var high, low := Hex(s[i + 1]), Hex(s[i + 2]);
        if high >= 0 && low >= 0 {
          var decoded := 16 * high + low;
          if decoded <= 31 || decoded == 127 || decoded == BACKSLASH as int {
            assert HarmfulEscape(s, i);
            return false;
          }
        }
      }
    }
    return true;
  }

  /** The authority is a host, or a host and a port; `h` is the length of the host. */
  ghost predicate HostPort(a: Text, h: nat) {
    && h <= |a| && HostOk(a[..h])
    && (h == |a| || (a[h] == COLON && PortOk(a[h + 1..])))
  }

  /** Up to five digits never exceed 99999, so the 32-bit accumulator cannot wrap. */
  lemma {:induction false} AccumulatorBound(digits: Text)
    requires |digits| <= 5 && forall i :: 0 <= i < |digits| ==> Digit(digits[i])
    ensures 0 <= Value(digits) <= 99999
    ensures |digits| == 0 ==> Value(digits) == 0
    ensures |digits| == 1 ==> Value(digits) <= 9
    ensures |digits| == 2 ==> Value(digits) <= 99
    ensures |digits| == 3 ==> Value(digits) <= 999
    ensures |digits| == 4 ==> Value(digits) <= 9999
  {
    if digits != [] { AccumulatorBound(digits[..|digits| - 1]); }
  }

  method Authority(a: Text) returns (ok: bool)
    requires a != []
    ensures ok <==> exists h: nat :: HostPort(a, h)
  {
    var port: Option<nat> := None;
    var number: int := 0;
    for i := 0 to |a|
      invariant port.None? ==> number == 0 && forall k :: 0 <= k < i ==> HostByte(a[k])
      invariant port.Some? ==>
                  && 2 <= port.value <= i && a[port.value - 1] == COLON && HostOk(a[..port.value - 1])
                  && i - port.value <= 5 && (forall k :: port.value <= k < i ==> Digit(a[k]))
                  && number == Value(a[port.value..i]) && 0 <= number <= 99999
    {
      var ch := a[i];
      if ch == COLON {
        if port.Some? || i == 0 {
          NoHostPort(a, i, port);
          return false;
        }
        assert a[..i] != [];
        port := Some(i + 1);
      } else if port.Some? {
        if !Digit(ch) || i - port.value >= 5 {
          NoHostPort(a, i, port);
          return false;
        }
        assert a[port.value..i + 1][..i - port.value] == a[port.value..i];
        number := number * 10 + ch as int - 48;
        AccumulatorBound(a[port.value..i + 1]);
      } else if !HostByte(ch) {
        NoHostPort(a, i, port);
        return false;
      }
    }
    ok := port.None? || (port.value < |a| && 0 < number <= 65535);
    if port.None? {
      assert a[..|a|] == a && HostPort(a, |a|);
    } else {
      assert a[port.value..|a|] == a[port.value - 1 + 1..];
      assert ok ==> HostPort(a, port.value - 1);
      OneHost(a, port.value - 1);
    }
  }

  lemma HostBytes(a: Text, h: nat)
    requires h <= |a| && HostOk(a[..h])
    ensures forall k :: 0 <= k < h ==> HostByte(a[k])
  {
    forall k | 0 <= k < h ensures HostByte(a[k]) { assert a[..h][k] == a[k]; }
  }

  /** The first colon ends the host. */
  lemma OneHost(a: Text, c: nat)
    requires c < |a| && a[c] == COLON && HostOk(a[..c])
    ensures forall h: nat :: HostPort(a, h) ==> h == c
  {
    HostBytes(a, c);
    forall h: nat | HostPort(a, h) ensures h == c { HostBytes(a, h); }
  }

  lemma NoHostPort(a: Text, i: nat, port: Option<nat>)
    requires i < |a|
    requires port.None? ==> forall k :: 0 <= k < i ==> HostByte(a[k])
    requires port.None? ==> if i == 0 then !HostByte(a[0]) else !HostByte(a[i]) && a[i] != COLON
    requires port.Some? ==> 2 <= port.value <= i && a[port.value - 1] == COLON && HostOk(a[..port.value - 1])
    requires port.Some? ==> !Digit(a[i]) || i - port.value >= 5
    ensures !exists h: nat :: HostPort(a, h)
  {
    if port.Some? {
      var c := port.value - 1;
      OneHost(a, c);
      assert a[c + 1..][i - port.value] == a[i];
    } else {
      forall h: nat ensures !HostPort(a, h) {
        if h <= |a| && HostOk(a[..h]) { HostBytes(a, h); }
      }
    }
  }

  method HttpsUrl(s: Text) returns (ok: bool)
    ensures ok <==> InGrammar(s)
  {
    if |s| < 10 || |s| > 8192 || s[..8] != Scheme() {
      TooShort(s);
      return false;
    }
    var clean := CleanBytes(s);
    if !clean { return false; }
    var end := 8;
    while end < |s| && s[end] != SLASH
      invariant 8 <= end <= |s|
      invariant forall k :: 8 <= k < end ==> s[k] != SLASH
    {
      end := end + 1;
    }
    SlashEndsAuthority(s, end);
    if end == |s| || end == 8 { return false; }
    ok := Authority(s[8..end]);
    if ok { Assemble(s, end); }
  }

  lemma TooShort(s: Text)
    requires |s| < 10 || |s| > 8192 || s[..8] != Scheme()
    ensures !InGrammar(s)
  {
    forall u: Url ensures WellFormed(u) ==> 10 <= |Render(u)| <= 8192 && Render(u)[..8] == Scheme() {
    }
  }

  function AuthorityOf(u: Url): Text {
    u.host + (if u.port.Some? then [COLON] + u.port.value else [])
  }

  /** In a rendered URL the first slash after the scheme ends the authority. */
  lemma SlashEndsAuthority(s: Text, end: nat)
    requires 8 <= end <= |s| && (end < |s| ==> s[end] == SLASH)
    requires forall k :: 8 <= k < end ==> s[k] != SLASH
    ensures forall u :: WellFormed(u) && Render(u) == s ==>
              8 < end < |s| && AuthorityOf(u) == s[8..end] && HostPort(s[8..end], |u.host|)
  {
    forall u | WellFormed(u) && Render(u) == s
      ensures 8 < end < |s| && AuthorityOf(u) == s[8..end] && HostPort(s[8..end], |u.host|)
    {
      var a := AuthorityOf(u);
      assert Render(u) == Scheme() + a + [SLASH] + u.path;
      AuthorityBytes(u);
      assert s[8 + |a|] == SLASH;
      assert forall k :: 0 <= k < |a| ==> s[8 + k] == a[k];
      assert forall k :: 8 <= k < 8 + |a| ==> s[k] == a[k - 8];
      assert end == 8 + |a|;
      assert s[8..end] == a;
      assert a[..|u.host|] == u.host;
      assert u.port.Some? ==> a[|u.host| + 1..] == u.port.value;
    }
  }

  lemma AuthorityBytes(u: Url)
    requires WellFormed(u)
    ensures forall k :: 0 <= k < |AuthorityOf(u)| ==> AuthorityOf(u)[k] != SLASH
  {
  }

  lemma Assemble(s: Text, end: nat)
    requires 10 <= |s| <= 8192 && s[..8] == Scheme() && Clean(s)
    requires 8 < end < |s| && s[end] == SLASH
    requires exists h: nat :: HostPort(s[8..end], h)
    ensures InGrammar(s)
  {
    var a := s[8..end];
    var h: nat :| HostPort(a, h);
    var u := Url(a[..h], if h == |a| then None else Some(a[h + 1..]), s[end + 1..]);
    AuthorityParts(a, h, u);
    RenderParts(s, end, u);
    assert WellFormed(u);
  }

  lemma AuthorityParts(a: Text, h: nat, u: Url)
    requires h <= |a| && (h < |a| ==> a[h] == COLON)
    requires u.host == a[..h] && u.port == if h == |a| then None else Some(a[h + 1..])
    ensures AuthorityOf(u) == a
  {
    if h < |a| { assert a == a[..h] + [a[h]] + a[h + 1..]; }
  }

  lemma RenderParts(s: Text, end: nat, u: Url)
    requires 8 <= end < |s| && s[..8] == Scheme() && s[end] == SLASH
    requires AuthorityOf(u) == s[8..end] && u.path == s[end + 1..]
    ensures Render(u) == s
  {
    assert s == s[..8] + s[8..end] + [s[end]] + s[end + 1..];
    assert Render(u) == Scheme() + AuthorityOf(u) + [SLASH] + u.path;
  }

  // ---------------------------------------------------------------- the grammar in characters

  predicate OneOf(c: letter, text: string) {
    exists i :: 0 <= i < |text| && text[i] as int == c
  }

  predicate HexDigit(c: letter) {
    OneOf(c, "0123456789abcdefABCDEF")
  }

  lemma HostInCharacters(c: letter)
    ensures HostByte(c) <==>
            || OneOf(c, "abcdefghijklmnopqrstuvwxyz") || OneOf(c, "ABCDEFGHIJKLMNOPQRSTUVWXYZ")
            || OneOf(c, "0123456789") || OneOf(c, ".-")
  {
    SmallLetters(c);
    CapitalLetters(c);
    Digits(c);
    DotAndHyphen(c);
    hide OneOf;
  }

  lemma Digits(c: letter)
    ensures Digit(c) <==> OneOf(c, "0123456789")
  {
    if Digit(c) { assert "0123456789"[c - 48] as int == c; }
  }

  lemma DotAndHyphen(c: letter)
    ensures c == 46 || c == 45 <==> OneOf(c, ".-")
  {
    assert ".-"[0] as int == 46 && ".-"[1] as int == 45;
  }

  lemma SmallLetters(c: letter)
    ensures 97 <= c <= 122 <==> OneOf(c, "abcdefghijklmnopqrstuvwxyz")
  {
    if 97 <= c <= 122 { assert "abcdefghijklmnopqrstuvwxyz"[c - 97] as int == c; }
  }

  lemma CapitalLetters(c: letter)
    ensures 65 <= c <= 90 <==> OneOf(c, "ABCDEFGHIJKLMNOPQRSTUVWXYZ")
  {
    if 65 <= c <= 90 { assert "ABCDEFGHIJKLMNOPQRSTUVWXYZ"[c - 65] as int == c; }
  }

  /** What may stand in a URL is visible ASCII, from `!` to `~`, without the backslash and the hash. */
  lemma PrintableInCharacters(c: letter)
    ensures Printable(c) <==> '!' as int <= c <= '~' as int && c != '\\' as int && c != '#' as int
  {
  }

  lemma HexInCharacters(c: letter)
    ensures Hex(c) >= 0 <==> HexDigit(c)
    ensures Hex(c) == 12 <==> OneOf(c, "cC")
    ensures Hex(c) == 15 <==> OneOf(c, "fF")
    ensures 0 <= Hex(c) <= 1 <==> OneOf(c, "01")
    ensures Hex(c) == 5 <==> c == '5' as int
    ensures Hex(c) == 7 <==> c == '7' as int
  {
    var text := "0123456789abcdefABCDEF";
    if Digit(c) { assert text[c - 48] as int == c; }
    if 97 <= c <= 102 { assert text[c - 97 + 10] as int == c; }
    if 65 <= c <= 70 { assert text[c - 65 + 16] as int == c; }
    assert "cC"[0] as int == 99 && "cC"[1] as int == 67;
    assert "fF"[0] as int == 102 && "fF"[1] as int == 70;
    assert "01"[0] as int == 48 && "01"[1] as int == 49;
  }

  lemma LiteralsInCharacters()
    ensures |Scheme()| == 8 && forall i :: 0 <= i < 8 ==> Scheme()[i] == "https://"[i] as int
    ensures |CaOption()| == 16 && forall i :: 0 <= i < 16 ==> CaOption()[i] == "--ca-certificate"[i] as int
    ensures COLON == ':' as int && SLASH == '/' as int
  {
  }

  /** The escapes refused are %00 to %1F, %7F and %5C, with letters of either case. */
  lemma EscapesInCharacters(s: Text, i: nat)
    requires i + 2 < |s|
    ensures HarmfulEscape(s, i) <==> HarmfulText(s, i)
  {
    hide Hex, OneOf, HexDigit;
    HexInCharacters(s[i + 1]);
    HexInCharacters(s[i + 2]);
  }

  function Decimal(n: nat): Text {
    if n < 10 then [48 + n] else Decimal(n / 10) + [48 + n % 10]
  }

  lemma {:induction false} DecimalValue(n: nat)
    ensures Value(Decimal(n)) == n && forall i :: 0 <= i < |Decimal(n)| ==> Digit(Decimal(n)[i])
    ensures n < 100000 ==> 1 <= |Decimal(n)| <= 5
    ensures n < 10000 ==> |Decimal(n)| <= 4
    ensures n < 1000 ==> |Decimal(n)| <= 3
    ensures n < 100 ==> |Decimal(n)| <= 2
  {
    if n >= 10 {
      DecimalValue(n / 10);
      assert Decimal(n)[..|Decimal(n)| - 1] == Decimal(n / 10);
    }
  }

  /** Written in decimal, exactly the numbers from 1 to 65535 are ports. */
  lemma PortInDecimal(n: nat)
    ensures PortOk(Decimal(n)) <==> 1 <= n <= 65535
  {
    DecimalValue(n);
  }

  ghost predicate Spells(s: Text, text: string) {
    |s| == |text| && forall i :: 0 <= i < |s| ==> s[i] == text[i] as int
  }

  predicate HostCharacter(c: letter) {
    || OneOf(c, "abcdefghijklmnopqrstuvwxyz") || OneOf(c, "ABCDEFGHIJKLMNOPQRSTUVWXYZ")
    || OneOf(c, "0123456789") || OneOf(c, ".-")
  }

  predicate VisibleCharacter(c: letter) {
    '!' as int <= c <= '~' as int && c != '\\' as int
  }

  predicate HarmfulText(s: Text, i: nat)
    requires i + 2 < |s|
  {
    s[i] == '%' as int &&
    (|| (OneOf(s[i + 1], "01") && HexDigit(s[i + 2]))
     || (s[i + 1] == '7' as int && OneOf(s[i + 2], "fF"))
     || (s[i + 1] == '5' as int && OneOf(s[i + 2], "cC")))
  }

  /** The parts of a URL in characters, and the whole as these parts put together. */
  lemma GrammarInCharacters(u: Url)
    ensures Spells(Scheme(), "https://") && COLON == ':' as int && SLASH == '/' as int
    ensures Render(u) == Scheme() + u.host + (if u.port.Some? then [COLON] + u.port.value else []) + [SLASH] + u.path
    ensures WellFormed(u) <==>
            && u.host != [] && (forall i :: 0 <= i < |u.host| ==> HostCharacter(u.host[i]))
            && (u.port.Some? ==>
                  && 1 <= |u.port.value| <= 5 && 1 <= Value(u.port.value) <= 65535
                  && forall i :: 0 <= i < |u.port.value| ==> OneOf(u.port.value[i], "0123456789"))
            && (forall i :: 0 <= i < |Render(u)| ==> VisibleCharacter(Render(u)[i]) && Render(u)[i] != '#' as int)
            && (forall i: nat :: i + 2 < |Render(u)| ==> !HarmfulText(Render(u), i))
            && |Render(u)| <= 8192
  {
    LiteralsInCharacters();
    HostInText(u.host);
    if u.port.Some? { DigitsInText(u.port.value); }
    CleanInText(Render(u));
    hide HostByte, HostCharacter, OneOf, VisibleCharacter, HarmfulText, Render, Clean, Value;
  }

  lemma HostInText(host: Text)
    ensures (forall i :: 0 <= i < |host| ==> HostByte(host[i])) <==>
            forall i :: 0 <= i < |host| ==> HostCharacter(host[i])
  {
    hide HostByte, OneOf;
    forall i | 0 <= i < |host| ensures HostByte(host[i]) <==> HostCharacter(host[i]) { HostInCharacters(host[i]); }
    hide HostCharacter;
  }

  lemma DigitsInText(port: Text)
    ensures (forall i :: 0 <= i < |port| ==> Digit(port[i])) <==>
            forall i :: 0 <= i < |port| ==> OneOf(port[i], "0123456789")
  {
    forall i | 0 <= i < |port| ensures Digit(port[i]) <==> OneOf(port[i], "0123456789") { Digits(port[i]); }
    hide OneOf;
  }

  lemma CleanInText(s: Text)
    ensures Clean(s) <==>
            && (forall i :: 0 <= i < |s| ==> VisibleCharacter(s[i]) && s[i] != '#' as int)
            && forall i: nat :: i + 2 < |s| ==> !HarmfulText(s, i)
  {
    hide HarmfulEscape, OneOf, HexDigit;
    forall i: nat | i + 2 < |s| ensures HarmfulEscape(s, i) <==> HarmfulText(s, i) { EscapesInCharacters(s, i); }
    hide HarmfulText;
    forall i | 0 <= i < |s| ensures Printable(s[i]) <==> VisibleCharacter(s[i]) && s[i] != '#' as int {
      PrintableInCharacters(s[i]);
    }
    hide Printable, VisibleCharacter;
  }

  /** The arguments in characters. */
  lemma ArgumentsInCharacters(args: seq<Text>)
    ensures ArgumentsOk(args) <==>
            || (|args| == 2 && InGrammar(args[1]))
            || (&& |args| == 4 && Spells(args[1], "--ca-certificate") && InGrammar(args[3])
                && |args[2]| >= 2 && args[2][0] == '/' as int
                && forall i :: 0 <= i < |args[2]| ==> VisibleCharacter(args[2][i]))
  {
    hide InGrammar;
    LiteralsInCharacters();
    if |args| == 4 {
      assert args[1] == CaOption() <==> Spells(args[1], "--ca-certificate");
    }
  }

  // ---------------------------------------------------------------- what acceptance means

  /** A text has one reading only: the parts that render to it are unique. */
  lemma OneParse(u: Url, v: Url)
    requires WellFormed(u) && WellFormed(v) && Render(u) == Render(v)
    ensures u == v
  {
    hide Clean, HostOk, PortOk;
    var s, a := Render(u), AuthorityOf(u);
    var end := 8 + |a|;
    AuthorityBytes(u);
    RenderedSlash(u);
    RenderedSlash(v);
    SlashEndsAuthority(s, end);
    assert AuthorityOf(v) == a;
    OneHostPort(a, |u.host|, |v.host|);
    assert u.host == a[..|u.host|] && v.host == a[..|v.host|];
    assert u.port.Some? ==> u.port.value == a[|u.host| + 1..];
    assert v.port.Some? ==> v.port.value == a[|v.host| + 1..];
  }

  lemma RenderedSlash(u: Url)
    ensures var s, end := Render(u), 8 + |AuthorityOf(u)|;
            end < |s| && s[8..end] == AuthorityOf(u) && s[end] == SLASH && s[end + 1..] == u.path
  {
    assert Render(u) == Scheme() + AuthorityOf(u) + [SLASH] + u.path;
  }

  lemma OneHostPort(a: Text, g: nat, h: nat)
    requires HostPort(a, g) && HostPort(a, h)
    ensures g == h
  {
    if g < |a| { OneHost(a, g); }
    if h < |a| { OneHost(a, h); }
  }

  /** The recogniser accepts every URL put together from well-formed parts. */
  method AcceptsRendered(u: Url) returns (ok: bool)
    requires WellFormed(u)
    ensures ok
  {
    ok := HttpsUrl(Render(u));
  }

  // ---------------------------------------------------------------- the arguments

  ghost predicate CaFile(path: Text) {
    |path| >= 2 && path[0] == SLASH && forall i :: 0 <= i < |path| ==> 33 <= path[i] <= 126 && path[i] != BACKSLASH
  }

  /** Either a URL alone, or the option, an absolute certificate file and a URL. */
  ghost predicate ArgumentsOk(args: seq<Text>) {
    || (|args| == 2 && InGrammar(args[1]))
    || (|args| == 4 && args[1] == CaOption() && CaFile(args[2]) && InGrammar(args[3]))
  }

  method RecoveryArguments(args: seq<Text>) returns (ok: bool)
    ensures ok <==> ArgumentsOk(args)
  {
    if |args| == 2 {
      ok := HttpsUrl(args[1]);
      return;
    }
    if |args| != 4 || args[1] != CaOption() || |args[2]| < 2 || args[2][0] != SLASH { return false; }
    var path := args[2];
    for i := 0 to |path|
      invariant forall k :: 0 <= k < i ==> 33 <= path[k] <= 126 && path[k] != BACKSLASH
    {
      if path[i] <= 32 || path[i] >= 127 || path[i] == BACKSLASH { return false; }
    }
    ok := HttpsUrl(args[3]);
  }
}
