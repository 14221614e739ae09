/** Python's ordering on `str` values and the zero-padded decimal digits used
    in the "YYYY-MM" month labels. */
module Text {

  /** Python's `<` on strings: code point by code point, and a proper prefix
      sorts before any longer string that extends it. */
  predicate StrLess(a: string, b: string)
  {
    if |a| == 0 then |b| > 0
    else if |b| == 0 then false
    else a[0] < b[0] || (a[0] == b[0] && StrLess(a[1..], b[1..]))
  }

  lemma {:induction false} StrLessIrreflexive(a: string)
    ensures !StrLess(a, a)
  {
    if |a| > 0 {
      StrLessIrreflexive(a[1..]);
    }
  }

  lemma {:induction false} StrLessTransitive(a: string, b: string, c: string)
    requires StrLess(a, b) && StrLess(b, c)
    ensures StrLess(a, c)
  {
    if |a| > 0 && a[0] == b[0] && b[0] == c[0] {
      StrLessTransitive(a[1..], b[1..], c[1..]);
    }
  }

  /** Any two strings are equal or ordered one way or the other. */
  lemma {:induction false} StrLessTotal(a: string, b: string)
    ensures a == b || StrLess(a, b) || StrLess(b, a)
  {
    if |a| > 0 && |b| > 0 && a[0] == b[0] {
      StrLessTotal(a[1..], b[1..]);
      if a[1..] == b[1..] {
        assert a == [a[0]] + a[1..] && b == [b[0]] + b[1..];
      }
    }
  }

  /** Comparing two concatenations whose first parts have the same length
      compares the first parts, and the second parts only on a tie. */
  lemma {:induction false} StrLessConcat(s1: string, t1: string, s2: string, t2: string)
    requires |s1| == |s2|
    ensures StrLess(s1 + t1, s2 + t2) <==> StrLess(s1, s2) || (s1 == s2 && StrLess(t1, t2))
  {
    if |s1| == 0 {
      assert s1 + t1 == t1 && s2 + t2 == t2;
    } else {
      assert (s1 + t1)[1..] == s1[1..] + t1;
      assert (s2 + t2)[1..] == s2[1..] + t2;
      StrLessConcat(s1[1..], t1, s2[1..], t2);
      if s1[0] == s2[0] && s1[1..] == s2[1..] {
        assert s1 == [s1[0]] + s1[1..] && s2 == [s2[0]] + s2[1..];
      }
    }
  }

  function Power10(n: nat): (p: nat)
    ensures p >= 1
  {
    if n == 0 then 1 else 10 * Power10(n - 1)
  }

  function Digit(n: int): char
    requires 0 <= n < 10
  {
    ('0' as int + n) as char
  }

  /** `x` written in decimal with exactly `width` digits, zero-padded on the
      left, most significant digit first. */
  function Digits(x: nat, width: nat): (s: string)
    requires x < Power10(width)
    ensures |s| == width
  {
    if width == 0 then []
    else
      assert x / 10 < Power10(width - 1);
      Digits(x / 10, width - 1) + [Digit(x % 10)]
  }

  /** Zero-padded decimal strings of one width sort as their numbers do, and
      are equal exactly when the numbers are. */
  lemma {:induction false} DigitsOrder(x: nat, y: nat, width: nat)
    requires x < Power10(width) && y < Power10(width)
    ensures StrLess(Digits(x, width), Digits(y, width)) <==> x < y
    ensures Digits(x, width) == Digits(y, width) <==> x == y
  {
    if width > 0 {
      assert x / 10 < Power10(width - 1) && y / 10 < Power10(width - 1);
      var hx, hy := Digits(x / 10, width - 1), Digits(y / 10, width - 1);
      var lx, ly := [Digit(x % 10)], [Digit(y % 10)];
      DigitsOrder(x / 10, y / 10, width - 1);
      StrLessConcat(hx, lx, hy, ly);
      assert StrLess(lx, ly) <==> x % 10 < y % 10;
      if hx + lx == hy + ly {
        assert hx == (hx + lx)[..width - 1] && hy == (hy + ly)[..width - 1];
        assert lx[0] == (hx + lx)[width - 1] && ly[0] == (hy + ly)[width - 1];
      }
    }
  }
}
