/** The names and digests that release documents may carry. */
module AssetNames {
  predicate Alphanumeric(c: char) {
    'A' <= c <= 'Z' || 'a' <= c <= 'z' || '0' <= c <= '9'
  }

  predicate Token(s: string, extra: string, limit: nat) {
    1 <= |s| <= limit && Alphanumeric(s[0]) && forall i :: 1 <= i < |s| ==> Alphanumeric(s[i]) || s[i] in extra
  }

  predicate IsName(s: string) { Token(s, "_.-", 160) }

  predicate IsPackage(s: string) { Token(s, "_.+-", 128) }

  predicate IsVersion(s: string) { Token(s, "_.~+-", 160) }

  predicate IsSha(s: string) {
    |s| == 64 && forall i :: 0 <= i < |s| ==> 'a' <= s[i] <= 'f' || '0' <= s[i] <= '9'
  }

  // ---------------------------------------------------------------- the same in characters

  predicate Within(s: string, first: string, rest: string) {
    s != "" && s[0] in first && forall i :: 1 <= i < |s| ==> s[i] in rest
  }

  const CAPITALS := "ABCDEFGHIJKLMNOPQRSTUVWXYZ"
  const SMALL := "abcdefghijklmnopqrstuvwxyz"
  const DIGITS := "0123456789"

  lemma AlphanumericInCharacters(c: char)
    ensures Alphanumeric(c) <==> c in CAPITALS + SMALL + DIGITS
  {
    CapitalIsListed(c);
    SmallIsListed(c);
    DigitIsListed(c);
  }

  lemma CapitalIsListed(c: char)
    ensures 'A' <= c <= 'Z' <==> c in CAPITALS
  {
    if 'A' <= c <= 'Z' { assert CAPITALS[c as int - 65] == c; }
  }

  lemma SmallIsListed(c: char)
    ensures 'a' <= c <= 'z' <==> c in SMALL
  {
    if 'a' <= c <= 'z' { assert SMALL[c as int - 97] == c; }
  }

  lemma DigitIsListed(c: char)
    ensures '0' <= c <= '9' <==> c in DIGITS
  {
    if '0' <= c <= '9' { assert DIGITS[c as int - 48] == c; }
  }

  lemma TokenInCharacters(s: string, extra: string, limit: nat)
    ensures Token(s, extra, limit) <==>
            |s| <= limit && Within(s, CAPITALS + SMALL + DIGITS, CAPITALS + SMALL + DIGITS + extra)
  {
    forall i | 0 <= i < |s| ensures Alphanumeric(s[i]) <==> s[i] in CAPITALS + SMALL + DIGITS {
      AlphanumericInCharacters(s[i]);
    }
    forall i | 0 <= i < |s|
      ensures s[i] in CAPITALS + SMALL + DIGITS + extra <==> s[i] in CAPITALS + SMALL + DIGITS || s[i] in extra
    {
      InEither(s[i], CAPITALS + SMALL + DIGITS, extra);
    }
    hide Alphanumeric;
  }

  lemma InEither(c: char, a: string, b: string)
    ensures c in a + b <==> c in a || c in b
  {
  }

  /** File names, package names and versions differ in length and in the marks they may hold after the first letter
      or digit; digests are 64 small hexadecimal digits. */
  lemma NamesInCharacters(s: string)
    ensures var first := CAPITALS + SMALL + DIGITS;
            && (IsName(s) <==> |s| <= 160 && Within(s, first, first + "_.-"))
            && (IsPackage(s) <==> |s| <= 128 && Within(s, first, first + "_.+-"))
            && (IsVersion(s) <==> |s| <= 160 && Within(s, first, first + "_.~+-"))
            && (IsSha(s) <==> |s| == 64 && forall i :: 0 <= i < |s| ==> s[i] in DIGITS || s[i] in "abcdef")
  {
    TokenInCharacters(s, "_.-", 160);
    TokenInCharacters(s, "_.+-", 128);
    TokenInCharacters(s, "_.~+-", 160);
    hide Within, Token;
    forall i | 0 <= i < |s|
      ensures 'a' <= s[i] <= 'f' || '0' <= s[i] <= '9' <==> s[i] in DIGITS || s[i] in "abcdef"
    {
      DigitIsListed(s[i]);
      if 'a' <= s[i] <= 'f' { assert "abcdef"[s[i] as int - 97] == s[i]; }
    }
  }
}
