/** The string operations of Python that the source relies on: `str`
    comparison, ASCII case mapping, decimal digits, `str.replace`, `str.strip`
    and `str.split`. Strings are sequences of code points. */
module Text {

  // ---------------------------------------------------------------- digits

  predicate IsDigit(c: char) { '0' <= c <= '9' }

  predicate AllDigits(s: string) { forall i :: 0 <= i < |s| ==> IsDigit(s[i]) }

  function DigitChar(d: nat): (c: char)
    requires d < 10
    ensures IsDigit(c)
  {
    ('0' as int + d) as char
  }

  function DigitValue(c: char): (d: nat)
    requires IsDigit(c)
    ensures d < 10 && DigitChar(d) == c
  {
    c as int - '0' as int
  }

  function Pow10(n: nat): (r: nat)
    ensures r >= 1
  {
    if n == 0 then 1 else 10 * Pow10(n - 1)
  }

  /** `'%0{w}d' % x`: the last `w` decimal digits of `x`, zero-padded. */
  function Padded(x: nat, w: nat): (s: string)
    ensures |s| == w && AllDigits(s)
  {
    if w == 0 then "" else Padded(x / 10, w - 1) + [DigitChar(x % 10)]
  }

  /** `int(s)` for a string of ASCII decimal digits. */
  function DigitsValue(s: string): nat
    requires AllDigits(s)
  {
    if s == [] then 0 else 10 * DigitsValue(s[..|s| - 1]) + DigitValue(s[|s| - 1])
  }

  /** Reading back a zero-padded number gives the number. */
  lemma {:induction false} PaddedValue(x: nat, w: nat)
    requires x < Pow10(w)
    ensures DigitsValue(Padded(x, w)) == x
  {
    if w > 0 {
      var q, r := x / 10, x % 10;
      DivTenBound(x, Pow10(w - 1));
      var s := Padded(x, w);
      assert s[..|s| - 1] == Padded(q, w - 1);
      assert DigitValue(s[|s| - 1]) == r;
      PaddedValue(q, w - 1);
    }
  }

  lemma DivTenBound(x: nat, p: nat)
    requires x < 10 * p
    ensures x / 10 < p && x == 10 * (x / 10) + x % 10
  {
  }

  /** `str(n)` for a natural number: no leading zeros. */
  function NatToString(n: nat): (s: string)
    ensures |s| > 0 && AllDigits(s)
  {
    if n < 10 then [DigitChar(n)] else NatToString(n / 10) + [DigitChar(n % 10)]
  }

  /** `str(n)` for any integer. */
  function IntToString(n: int): string
  {
    if n < 0 then "-" + NatToString(-n) else NatToString(n)
  }

  /** `str(n)` is the canonical decimal spelling: it reads back as `n` and
      starts with a zero only when it is "0". */
  lemma {:induction false} NatToStringValue(n: nat)
    ensures DigitsValue(NatToString(n)) == n
    ensures |NatToString(n)| > 1 ==> NatToString(n)[0] != '0'
  {
    if n >= 10 {
      var s := NatToString(n);
      assert s[..|s| - 1] == NatToString(n / 10);
      NatToStringValue(n / 10);
    }
  }

  // ---------------------------------------------------------------- ordering

  /** Python's `a < b` on `str`: lexicographic over code points, a proper
      prefix before the longer string. */
  predicate LexLess(a: string, b: string)
    decreases |a|
  {
    |b| > 0 && (|a| == 0 || a[0] < b[0] || (a[0] == b[0] && LexLess(a[1..], b[1..])))
  }

  lemma {:induction false} LexLessIrreflexive(a: string)
    ensures !LexLess(a, a)
    decreases |a|
  {
    if |a| > 0 { LexLessIrreflexive(a[1..]); }
  }

  lemma {:induction false} LexLessTransitive(a: string, b: string, c: string)
    requires LexLess(a, b) && LexLess(b, c)
    ensures LexLess(a, c)
    decreases |a|
  {
    if |a| > 0 && a[0] == b[0] && b[0] == c[0] {
      LexLessTransitive(a[1..], b[1..], c[1..]);
    }
  }

  lemma {:induction false} LexLessTotal(a: string, b: string)
    ensures a == b || LexLess(a, b) || LexLess(b, a)
    decreases |a|
  {
    if |a| > 0 && |b| > 0 && a[0] == b[0] {
      LexLessTotal(a[1..], b[1..]);
      if a[1..] == b[1..] {
        assert a == [a[0]] + a[1..] && b == [b[0]] + b[1..];
      }
    }
  }

  /** Comparing two strings cut at the same position compares the heads
      first and the tails only when the heads are equal. */
  lemma {:induction false} LexLessAppend(a1: string, a2: string, b1: string, b2: string)
    requires |a1| == |b1|
    ensures LexLess(a1 + a2, b1 + b2) <==> LexLess(a1, b1) || (a1 == b1 && LexLess(a2, b2))
    decreases |a1|
  {
    if |a1| > 0 {
      assert (a1 + a2)[0] == a1[0] && (b1 + b2)[0] == b1[0];
      assert (a1 + a2)[1..] == a1[1..] + a2 && (b1 + b2)[1..] == b1[1..] + b2;
      LexLessAppend(a1[1..], a2, b1[1..], b2);
      if a1[0] == b1[0] && a1[1..] == b1[1..] {
        assert a1 == [a1[0]] + a1[1..] && b1 == [b1[0]] + b1[1..];
      }
    } else {
      assert a1 + a2 == a2 && b1 + b2 == b2;
    }
  }

  /** Zero-padded numbers of one width are equal exactly when the numbers are. */
  lemma PaddedInjective(x: nat, y: nat, w: nat)
    requires x < Pow10(w) && y < Pow10(w)
    ensures Padded(x, w) == Padded(y, w) <==> x == y
  {
    PaddedValue(x, w);
    PaddedValue(y, w);
  }

  lemma LexLessSingle(c: char, d: char)
    ensures LexLess([c], [d]) <==> c < d
  {
    assert [c][1..] == [] && [d][1..] == [];
  }

  /** Zero-padded numbers of one width compare as strings exactly as they
      compare as numbers. */
  lemma {:induction false} PaddedOrder(x: nat, y: nat, w: nat)
    requires x < Pow10(w) && y < Pow10(w)
    ensures LexLess(Padded(x, w), Padded(y, w)) <==> x < y
    ensures Padded(x, w) == Padded(y, w) <==> x == y
  {
    PaddedInjective(x, y, w);
    if w > 0 {
      var qx, qy := x / 10, y / 10;
      DivTenBound(x, Pow10(w - 1));
      DivTenBound(y, Pow10(w - 1));
      DecimalOrder(x, y);
      PaddedOrder(qx, qy, w - 1);
      var cx, cy := DigitChar(x % 10), DigitChar(y % 10);
      assert Padded(x, w) == Padded(qx, w - 1) + [cx];
      assert Padded(y, w) == Padded(qy, w - 1) + [cy];
      LexLessAppend(Padded(qx, w - 1), [cx], Padded(qy, w - 1), [cy]);
      LexLessSingle(cx, cy);
    } else {
      LexLessIrreflexive("");
    }
  }

  /** Numbers compare by all digits but the last, then by the last. */
  lemma DecimalOrder(x: nat, y: nat)
    ensures x < y <==> x / 10 < y / 10 || (x / 10 == y / 10 && x % 10 < y % 10)
    ensures x == y <==> x / 10 == y / 10 && x % 10 == y % 10
  {
  }

  // ---------------------------------------------------------------- case

  /** `str.upper` on one character, for the ASCII letters. */
  function UpperChar(c: char): char
  {
    if 'a' <= c <= 'z' then (c as int - 32) as char else c
  }

  /** `str.lower` on one character, for the ASCII letters. */
  function LowerChar(c: char): char
  {
    if 'A' <= c <= 'Z' then (c as int + 32) as char else c
  }

  function Upper(s: string): (r: string)
    ensures |r| == |s|
  {
    seq(|s|, i requires 0 <= i < |s| => UpperChar(s[i]))
  }

  function Lower(s: string): (r: string)
    ensures |r| == |s|
  {
    seq(|s|, i requires 0 <= i < |s| => LowerChar(s[i]))
  }

  /** No ASCII lower-case letter occurs in `s`. */
  predicate IsUpperCase(s: string)
  {
    forall i :: 0 <= i < |s| ==> !('a' <= s[i] <= 'z')
  }

  /** Upper-casing leaves no lower-case letter, changes nothing else, and a
      second upper-casing is the identity. */
  lemma UpperNormalises(s: string)
    ensures IsUpperCase(Upper(s))
    ensures Upper(Upper(s)) == Upper(s)
    ensures IsUpperCase(s) ==> Upper(s) == s
    ensures forall i :: 0 <= i < |s| && !('a' <= s[i] <= 'z') ==> Upper(s)[i] == s[i]
    ensures forall i :: 0 <= i < |s| && 'a' <= s[i] <= 'z' ==> Upper(s)[i] as int == s[i] as int - 32
  {
  }

  // ---------------------------------------------------------------- editing

  /** `s.replace(pat, '')`: every non-overlapping occurrence of `pat`,
      scanning from the left, removed. */
  function RemoveAll(s: string, pat: string): (r: string)
    requires |pat| > 0
    ensures |r| <= |s|
    decreases |s|
  {
    if |s| < |pat| then s
    else if s[..|pat|] == pat then RemoveAll(s[|pat|..], pat)
    else [s[0]] + RemoveAll(s[1..], pat)
  }

  /** A pattern holding a character that `s` lacks never occurs in `s`. */
  lemma {:induction false} RemoveAllAbsent(s: string, pat: string, c: char)
    requires |pat| > 0 && c in pat && c !in s
    ensures RemoveAll(s, pat) == s
    decreases |s|
  {
    if |s| >= |pat| {
      assert s[..|pat|] != pat by {
        var k :| 0 <= k < |pat| && pat[k] == c;
        assert s[..|pat|][k] == s[k];
      }
      assert c !in s[1..] by {
        forall k | 0 <= k < |s[1..]| ensures s[1..][k] != c { assert s[1..][k] == s[k + 1]; }
      }
      RemoveAllAbsent(s[1..], pat, c);
      assert s == [s[0]] + s[1..];
    }
  }

  /** Removing a one-character pattern leaves none of that character. */
  lemma {:induction false} RemoveAllChar(s: string, c: char)
    ensures c !in RemoveAll(s, [c])
    ensures forall d :: d in RemoveAll(s, [c]) ==> d in s
    decreases |s|
  {
    if |s| >= 1 {
      RemoveAllChar(s[1..], c);
      if s[..1] != [c] {
        assert s[0] != c by { assert s[..1][0] == s[0]; }
      }
    }
  }

  /** Removing a one-character pattern distributes over concatenation. */
  lemma {:induction false} RemoveCharAppend(a: string, b: string, c: char)
    ensures RemoveAll(a + b, [c]) == RemoveAll(a, [c]) + RemoveAll(b, [c])
    decreases |a|
  {
    if |a| == 0 {
      assert a + b == b;
    } else {
      RemoveCharAppend(a[1..], b, c);
      assert (a + b)[1..] == a[1..] + b;
      assert (a + b)[..1] == a[..1];
    }
  }

  /** `s.lstrip(cs)` */
  function StripLeft(s: string, cs: set<char>): (r: string)
    ensures |r| <= |s|
  {
    if |s| > 0 && s[0] in cs then StripLeft(s[1..], cs) else s
  }

  /** `s.rstrip(cs)` */
  function StripRight(s: string, cs: set<char>): (r: string)
    ensures |r| <= |s|
  {
    if |s| > 0 && s[|s| - 1] in cs then StripRight(s[..|s| - 1], cs) else s
  }

  /** `s.strip(cs)` */
  function Strip(s: string, cs: set<char>): string
  {
    StripRight(StripLeft(s, cs), cs)
  }

  /** `s.split(c)`: the pieces between occurrences of `c`, always at least one. */
  function SplitOn(s: string, c: char): (parts: seq<string>)
    ensures |parts| >= 1
    decreases |s|
  {
    if |s| == 0 then [""]
    else
      var rest := SplitOn(s[1..], c);
      if s[0] == c then [""] + rest else [[s[0]] + rest[0]] + rest[1..]
  }

  /** `c.join(parts)` */
  function Join(parts: seq<string>, c: char): string
    requires |parts| >= 1
  {
    if |parts| == 1 then parts[0] else parts[0] + [c] + Join(parts[1..], c)
  }

  /** A piece without the separator, followed by the separator, splits off
      as one piece. */
  lemma {:induction false} SplitOnPiece(p: string, rest: string, c: char)
    requires c !in p
    ensures SplitOn(p + [c] + rest, c) == [p] + SplitOn(rest, c)
    ensures SplitOn(p, c) == [p]
    decreases |p|
  {
    if |p| == 0 {
      assert p + [c] + rest == [c] + rest;
      assert ([c] + rest)[1..] == rest;
    } else {
      assert c !in p[1..] by {
        forall k | 0 <= k < |p[1..]| ensures p[1..][k] != c { assert p[1..][k] == p[k + 1]; }
      }
      SplitOnPiece(p[1..], rest, c);
      assert (p + [c] + rest)[1..] == p[1..] + [c] + rest;
      assert [p[0]] + p[1..] == p;
    }
  }

  /** Splitting undoes joining when no piece holds the separator. */
  lemma {:induction false} SplitJoin(parts: seq<string>, c: char)
    requires |parts| >= 1
    requires forall i :: 0 <= i < |parts| ==> c !in parts[i]
    ensures SplitOn(Join(parts, c), c) == parts
  {
    if |parts| == 1 {
      SplitOnPiece(parts[0], "", c);
    } else {
      SplitJoin(parts[1..], c);
      SplitOnPiece(parts[0], Join(parts[1..], c), c);
      assert parts == [parts[0]] + parts[1..];
    }
  }
}
