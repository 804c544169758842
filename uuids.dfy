/** Session identifiers: Python's `uuid.UUID`, parsed from the `session`
    header with `UUID(text)` and spelled back with `str(uuid)`. */
module Uuids {
  import opened Wrappers
  import opened Text

  predicate IsHexDigit(c: char)
  {
    '0' <= c <= '9' || 'a' <= c <= 'f' || 'A' <= c <= 'F'
  }

  predicate IsLowerHex(s: string)
  {
    forall i :: 0 <= i < |s| ==> '0' <= s[i] <= '9' || 'a' <= s[i] <= 'f'
  }

  /** A 128-bit identifier, held as its 32 lower-case hexadecimal digits
      (two `UUID` values are equal exactly when these are). */
  type Uuid = s: string | |s| == 32 && IsLowerHex(s)
    witness "00000000000000000000000000000000"

  /** `a-rest` */
  function Hyphenated(a: string, rest: string): string
  {
    a + "-" + rest
  }

  /** `str(u)`: the digits in groups of 8-4-4-4-12 joined by hyphens. */
  function Canonical(u: Uuid): (s: string)
    ensures |s| == 36 && s[8] == '-' && s[13] == '-' && s[18] == '-' && s[23] == '-'
    ensures forall i :: 0 <= i < 36 && i !in {8, 13, 18, 23} ==> '0' <= s[i] <= '9' || 'a' <= s[i] <= 'f'
  {
    Hyphenated(u[..8], Hyphenated(u[8..12], Hyphenated(u[12..16], Hyphenated(u[16..20], u[20..]))))
  }

  /** The text `UUID(text)` converts to a number: the prefixes "urn:" and
      "uuid:" removed, braces stripped from both ends, hyphens removed. */
  function HexPart(text: string): (h: string)
    ensures |h| <= |text|
  {
    RemoveAll(Strip(RemoveAll(RemoveAll(text, "urn:"), "uuid:"), {'{', '}'}), "-")
  }

  /** `UUID(text)`: `None` where the constructor raises `ValueError`,
      i.e. unless exactly 32 hexadecimal digits remain. */
  function ParseUuid(text: string): (r: Option<Uuid>)
    ensures r.Some? <==> |HexPart(text)| == 32 && forall i :: 0 <= i < 32 ==> IsHexDigit(HexPart(text)[i])
    ensures r.Some? ==> |text| >= 32
    ensures r.Some? ==> forall i :: 0 <= i < 32 ==> r.value[i] == LowerChar(HexPart(text)[i])
  {
    var h := HexPart(text);
    if |h| == 32 && forall i :: 0 <= i < 32 ==> IsHexDigit(h[i]) then
      var l := Lower(h);
      assert IsLowerHex(l);
      Some(l)
    else None
  }

  /** Text without 'u', '{' or '}' has no "urn:" or "uuid:" in it and no
      brace to strip, so only its hyphens go. */
  lemma HexPartOfPlain(s: string)
    requires 'u' !in s && '{' !in s && '}' !in s
    ensures HexPart(s) == RemoveAll(s, "-")
  {
    RemoveAllAbsent(s, "urn:", 'u');
    RemoveAllAbsent(s, "uuid:", 'u');
    if |s| > 0 {
      assert s[0] !in {'{', '}'} && s[|s| - 1] !in {'{', '}'};
    }
    assert StripLeft(s, {'{', '}'}) == s;
    assert StripRight(s, {'{', '}'}) == s;
  }

  /** Hyphen-free text loses nothing to the hyphen removal. */
  lemma NoHyphens(s: string)
    requires '-' !in s
    ensures RemoveAll(s, "-") == s
  {
    if |s| > 0 {
      RemoveAllAbsent(s, "-", '-');
    }
  }

  lemma RemoveHyphen(a: string, rest: string)
    requires '-' !in a
    ensures RemoveAll(Hyphenated(a, rest), "-") == a + RemoveAll(rest, "-")
  {
    assert Hyphenated(a, rest) == a + ("-" + rest);
    RemoveCharAppend(a, "-" + rest, '-');
    RemoveCharAppend("-", rest, '-');
    NoHyphens(a);
    assert RemoveAll("-", "-") == "";
  }

  /** No slice of the digits holds a hyphen. */
  lemma NoHyphenIn(u: Uuid, lo: nat, hi: nat)
    requires lo <= hi <= 32
    ensures '-' !in u[lo..hi]
  {
    forall i | 0 <= i < hi - lo ensures u[lo..hi][i] != '-' {
      assert u[lo..hi][i] == u[lo + i];
    }
  }

  /** Removing the hyphens from `str(u)` leaves the digits. */
  lemma CanonicalDigits(u: Uuid)
    ensures RemoveAll(Canonical(u), "-") == u
  {
    NoHyphenIn(u, 0, 8);
    NoHyphenIn(u, 8, 12);
    NoHyphenIn(u, 12, 16);
    NoHyphenIn(u, 16, 20);
    NoHyphenIn(u, 20, 32);
    assert u[20..] == u[20..32];
    var t4 := Hyphenated(u[16..20], u[20..]);
    var t3 := Hyphenated(u[12..16], t4);
    var t2 := Hyphenated(u[8..12], t3);
    NoHyphens(u[20..]);
    RemoveHyphen(u[16..20], u[20..]);
    assert u[16..20] + u[20..] == u[16..];
    RemoveHyphen(u[12..16], t4);
    assert u[12..16] + u[16..] == u[12..];
    RemoveHyphen(u[8..12], t3);
    assert u[8..12] + u[12..] == u[8..];
    RemoveHyphen(u[..8], t2);
    assert u[..8] + u[8..] == u;
  }

  /** `UUID(str(u)) == u`: the canonical spelling parses back to the same
      identifier. */
  lemma ParseCanonical(u: Uuid)
    ensures ParseUuid(Canonical(u)) == Some(u)
  {
    var s := Canonical(u);
    assert 'u' !in s && '{' !in s && '}' !in s;
    HexPartOfPlain(s);
    CanonicalDigits(u);
    assert Lower(u) == u;
  }

  /** The undelimited 32-digit spelling (the `UUID.hex` form) is accepted
      too. */
  lemma ParseHexDigits(u: Uuid)
    ensures ParseUuid(u) == Some(u)
  {
    assert 'u' !in u && '{' !in u && '}' !in u && '-' !in u;
    HexPartOfPlain(u);
    NoHyphens(u);
    assert Lower(u) == u;
  }

  /** Upper-casing keeps every digit a hexadecimal digit, and lower-casing
      it again gives the original digit. */
  lemma UpperDigits(u: Uuid)
    ensures |Upper(u)| == 32
    ensures forall i :: 0 <= i < 32 ==> IsHexDigit(Upper(u)[i]) && LowerChar(Upper(u)[i]) == u[i]
  {
    forall i | 0 <= i < 32 ensures IsHexDigit(Upper(u)[i]) && LowerChar(Upper(u)[i]) == u[i] {
      assert Upper(u)[i] == UpperChar(u[i]);
    }
  }

  /** Upper-case digits name the same identifier. */
  lemma ParseUpperCase(u: Uuid)
    ensures ParseUuid(Upper(u)) == Some(u)
  {
    var v := Upper(u);
    UpperDigits(u);
    assert 'u' !in v && '{' !in v && '}' !in v && '-' !in v;
    HexPartOfPlain(v);
    NoHyphens(v);
    assert Lower(v) == u;
  }
}
