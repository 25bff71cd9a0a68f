/** The pieces of `java.lang` the coordinator relies on: `Integer.compare`,
    `String.compareTo`, `String.compareToIgnoreCase` (for ASCII letters) and the
    decimal rendering used by the default channel name. */
module Text {

  /** `Integer.compare`: -1, 0 or 1 by the order of the arguments. */
  function IntCompare(x: int, y: int): (r: int)
    ensures r == -1 <==> x < y
    ensures r == 0 <==> x == y
    ensures r == 1 <==> x > y
  {
    if x < y then -1 else if x == y then 0 else 1
  }

  /** `String.compareTo`: the difference of the first differing characters, or of
      the lengths when one string is a prefix of the other. */
  function Compare(a: string, b: string): int
    decreases |a|
  {
    if |a| == 0 || |b| == 0 then |a| - |b|
    else if a[0] != b[0] then a[0] as int - b[0] as int
    else Compare(a[1..], b[1..])
  }

  /** `compareTo` is zero exactly for equal strings. */
  lemma {:induction false} CompareZeroIffEqual(a: string, b: string)
    ensures Compare(a, b) == 0 <==> a == b
    decreases |a|
  {
    if |a| > 0 && |b| > 0 && a[0] == b[0] {
      CompareZeroIffEqual(a[1..], b[1..]);
      assert a == [a[0]] + a[1..] && b == [b[0]] + b[1..];
      if a[1..] != b[1..] {
        assert a != b;
      }
    } else if |a| > 0 && |b| > 0 {
      assert a[0] != b[0];
    }
  }

  /** Swapping the arguments negates `compareTo`. */
  lemma {:induction false} CompareAntisymmetric(a: string, b: string)
    ensures Compare(a, b) == -Compare(b, a)
    decreases |a|
  {
    if |a| > 0 && |b| > 0 && a[0] == b[0] {
      CompareAntisymmetric(a[1..], b[1..]);
    }
  }

  /** Case folding of ASCII letters, as `toLowerCase(toUpperCase(c))` does for them. */
  function Fold(c: char): (r: char)
    ensures 'A' <= c <= 'Z' ==> r as int == c as int + 32
    ensures !('A' <= c <= 'Z') ==> r == c
  {
    if 'A' <= c <= 'Z' then (c as int + 32) as char else c
  }

  /** `String.compareToIgnoreCase`, restricted to ASCII case folding. */
  function CompareIgnoreCase(a: string, b: string): int
    decreases |a|
  {
    if |a| == 0 || |b| == 0 then |a| - |b|
    else if Fold(a[0]) != Fold(b[0]) then Fold(a[0]) as int - Fold(b[0]) as int
    else CompareIgnoreCase(a[1..], b[1..])
  }

  /** Two strings are equal ignoring case when they have the same length and fold
      to the same characters. */
  predicate EqualIgnoreCase(a: string, b: string) {
    |a| == |b| && forall i :: 0 <= i < |a| ==> Fold(a[i]) == Fold(b[i])
  }

  lemma {:induction false} CompareIgnoreCaseZero(a: string, b: string)
    ensures CompareIgnoreCase(a, b) == 0 <==> EqualIgnoreCase(a, b)
    decreases |a|
  {
    if |a| > 0 && |b| > 0 && Fold(a[0]) == Fold(b[0]) {
      CompareIgnoreCaseZero(a[1..], b[1..]);
      if EqualIgnoreCase(a[1..], b[1..]) {
        forall i | 0 <= i < |a|
          ensures Fold(a[i]) == Fold(b[i])
        {
          if i > 0 {
            assert a[i] == a[1..][i - 1] && b[i] == b[1..][i - 1];
          }
        }
      } else if |a| == |b| {
        var i :| 0 <= i < |a| - 1 && Fold(a[1..][i]) != Fold(b[1..][i]);
        assert Fold(a[i + 1]) != Fold(b[i + 1]);
      }
    } else if |a| > 0 && |b| > 0 {
      assert Fold(a[0]) != Fold(b[0]);
    }
  }

  lemma {:induction false} CompareIgnoreCaseAntisymmetric(a: string, b: string)
    ensures CompareIgnoreCase(a, b) == -CompareIgnoreCase(b, a)
    decreases |a|
  {
    if |a| > 0 && |b| > 0 && Fold(a[0]) == Fold(b[0]) {
      CompareIgnoreCaseAntisymmetric(a[1..], b[1..]);
    }
  }

  /** The digit character for `d`. */
  function Digit(d: nat): char
    requires d < 10
  {
    "0123456789"[d]
  }

  /** The decimal rendering of a natural number, without leading zeros. */
  function NatToString(n: nat): (s: string)
    ensures |s| > 0
    ensures forall i :: 0 <= i < |s| ==> '0' <= s[i] <= '9'
    ensures |s| > 1 ==> s[0] != '0'
    decreases n
  {
    var last := [Digit(n % 10)];
    if n < 10 then last else NatToString(n / 10) + last
  }

  /** `%d`: the decimal rendering of an integer. */
  function IntToString(n: int): (s: string)
    ensures |s| > 0
    ensures n >= 0 <==> s[0] != '-'
  {
    if n < 0 then "-" + NatToString(-n) else NatToString(n)
  }

  /** The value of a string of decimal digits. */
  function DigitsValue(s: string): (v: nat)
    requires forall i :: 0 <= i < |s| ==> '0' <= s[i] <= '9'
    decreases |s|
  {
    if |s| == 0 then 0
    else DigitsValue(s[..|s| - 1]) * 10 + (s[|s| - 1] as int - '0' as int)
  }

  /** Reading back a rendered natural number gives the number. */
  lemma {:induction false} NatToStringRoundTrip(n: nat)
    ensures DigitsValue(NatToString(n)) == n
    decreases n
  {
    var last := [Digit(n % 10)];
    assert Digit(n % 10) as int - '0' as int == n % 10;
    if n >= 10 {
      NatToStringRoundTrip(n / 10);
      var s := NatToString(n / 10) + last;
      assert s[..|s| - 1] == NatToString(n / 10);
    }
  }

  /** Different natural numbers have different renderings. */
  lemma NatToStringInjective(m: nat, n: nat)
    requires NatToString(m) == NatToString(n)
    ensures m == n
  {
    NatToStringRoundTrip(m);
    NatToStringRoundTrip(n);
  }
}
