/** String operations the scanning workflow relies on: Python's
    `str.startswith`, the substring test `p in s`, and the decimal
    conversions `int(s)` (for ASCII digit strings) and `str(n)`. */
module Text {

  /** Python's `s.startswith(p)`. */
  predicate StartsWith(s: string, p: string) {
    |p| <= |s| && s[..|p|] == p
  }

  /** Python's `p in s`, scanning s from the left. */
  predicate Contains(s: string, p: string)
    decreases |s|
  {
    |p| <= |s| && (s[..|p|] == p || Contains(s[1..], p))
  }

  /** Reference definition of `p in s`: p occurs at some offset of s. */
  ghost predicate OccursAt(s: string, p: string, i: int) {
    0 <= i && i + |p| <= |s| && s[i..i + |p|] == p
  }

  lemma {:induction false} ContainsIffOccurs(s: string, p: string)
    ensures Contains(s, p) <==> exists i :: OccursAt(s, p, i)
    decreases |s|
  {
    if |p| <= |s| {
      if s[..|p|] == p {
        assert OccursAt(s, p, 0);
      } else {
        ContainsIffOccurs(s[1..], p);
        if exists i :: OccursAt(s[1..], p, i) {
          var i :| OccursAt(s[1..], p, i);
          assert s[1..][i..i + |p|] == s[i + 1..i + 1 + |p|];
          assert OccursAt(s, p, i + 1);
        }
        if exists i :: OccursAt(s, p, i) {
          var i :| OccursAt(s, p, i);
          assert i != 0;
          assert s[1..][i - 1..i - 1 + |p|] == s[i..i + |p|];
          assert OccursAt(s[1..], p, i - 1);
        }
      }
    }
  }

  predicate IsDigit(c: char) {
    '0' <= c <= '9'
  }

  predicate AllDigits(s: string) {
    forall i :: 0 <= i < |s| ==> IsDigit(s[i])
  }

  /** The shape `str(n)` prints: at least one digit and no leading zero,
      except for "0" itself. */
  predicate Canonical(s: string) {
    AllDigits(s) && |s| >= 1 && (s[0] == '0' ==> |s| == 1)
  }

  function DigitValue(c: char): (d: nat)
    requires IsDigit(c)
    ensures d < 10
  {
    c as int - '0' as int
  }

  function DigitChar(d: nat): (c: char)
    requires d < 10
    ensures IsDigit(c) && DigitValue(c) == d
    ensures (c == '0') == (d == 0)
  {
    ('0' as int + d) as char
  }

  /** Python's `int(s)` on a string of ASCII digits. */
  function ParseNat(s: string): nat
    requires AllDigits(s)
    decreases |s|
  {
    if s == [] then 0 else 10 * ParseNat(s[..|s| - 1]) + DigitValue(s[|s| - 1])
  }

  /** Python's `str(n)` for a non-negative integer. */
  function NatToString(n: nat): (r: string)
    ensures Canonical(r)
    ensures ParseNat(r) == n
    decreases n
  {
    if n < 10 then [DigitChar(n)]
    else
      var prefix := NatToString(n / 10);
      var r := prefix + [DigitChar(n % 10)];
      assert r[..|r| - 1] == prefix;
      r
  }

  /** A canonical digit string other than "0" denotes a positive number. */
  lemma {:induction false} CanonicalPositive(s: string)
    requires Canonical(s) && s[0] != '0'
    ensures ParseNat(s) >= 1
    decreases |s|
  {
    if |s| > 1 {
      var prefix := s[..|s| - 1];
      assert prefix[0] == s[0];
      CanonicalPositive(prefix);
    } else {
      assert s[..0] == [];
    }
  }

  /** `str(int(s)) == s` for every string `str` could have printed. */
  lemma {:induction false} CanonicalRoundTrip(s: string)
    requires Canonical(s)
    ensures NatToString(ParseNat(s)) == s
    decreases |s|
  {
    var n := ParseNat(s);
    if |s| == 1 {
      assert s[..0] == [] && ParseNat(s[..0]) == 0;
      assert n == DigitValue(s[0]);
      assert [DigitChar(n)] == s;
    } else {
      var prefix := s[..|s| - 1];
      assert prefix[0] == s[0];
      CanonicalPositive(prefix);
      CanonicalRoundTrip(prefix);
      var d := DigitValue(s[|s| - 1]);
      assert n / 10 == ParseNat(prefix) && n % 10 == d;
      assert DigitChar(d) == s[|s| - 1];
      assert s == prefix + [s[|s| - 1]];
    }
  }

  /** `str(int(s))` is never longer than s: it only drops leading zeros. */
  lemma {:induction false} NatToStringNoLonger(s: string)
    requires AllDigits(s) && |s| >= 1
    ensures |NatToString(ParseNat(s))| <= |s|
    decreases |s|
  {
    if |s| > 1 {
      var prefix := s[..|s| - 1];
      NatToStringNoLonger(prefix);
      var n := ParseNat(s);
      assert n / 10 == ParseNat(prefix);
    }
  }
}
