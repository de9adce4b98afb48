/** Text as the store and the pages see it: SQLite's BINARY collation (the
    order used by `ORDER BY`, `BETWEEN` and `GROUP BY` on TEXT columns),
    decimal digits as Python's `str`, f-strings and `strftime` print them, and
    Python's `str.strip()`. */
module Text {

  /* ---------------- SQLite BINARY collation ---------------- */

  /** `a <= b` under SQLite's BINARY collation. SQLite compares the UTF-8
      bytes with memcmp and then the lengths; UTF-8 byte order is code point
      order, so this is the lexicographic order on characters. */
  predicate Le(a: string, b: string)
  {
    |a| == 0 || (|b| > 0 && (a[0] < b[0] || (a[0] == b[0] && Le(a[1..], b[1..]))))
  }

  /** Strict order: `a < b`. */
  predicate Lt(a: string, b: string)
  {
    !Le(b, a)
  }

  /** SQL `x BETWEEN lo AND hi`: inclusive at both ends. */
  predicate Between(x: string, lo: string, hi: string)
  {
    Le(lo, x) && Le(x, hi)
  }

  lemma {:induction false} LeReflexive(a: string)
    ensures Le(a, a)
  {
    if |a| > 0 {
      LeReflexive(a[1..]);
    }
  }

  lemma {:induction false} LeTotal(a: string, b: string)
    ensures Le(a, b) || Le(b, a)
  {
    if |a| > 0 && |b| > 0 && a[0] == b[0] {
      LeTotal(a[1..], b[1..]);
    }
  }

  lemma {:induction false} LeAntisymmetric(a: string, b: string)
    requires Le(a, b) && Le(b, a)
    ensures a == b
  {
    if |a| > 0 {
      LeAntisymmetric(a[1..], b[1..]);
      assert a == [a[0]] + a[1..] && b == [b[0]] + b[1..];
    }
  }

  lemma {:induction false} LeTransitive(a: string, b: string, c: string)
    requires Le(a, b) && Le(b, c)
    ensures Le(a, c)
  {
    if |a| > 0 && a[0] == b[0] && b[0] == c[0] {
      LeTransitive(a[1..], b[1..], c[1..]);
    }
  }

  lemma LtTransitive(a: string, b: string, c: string)
    requires Lt(a, b) && Lt(b, c)
    ensures Lt(a, c)
  {
    LeTotal(a, b);
    if Le(c, a) {
      LeTransitive(c, a, b);
    }
  }

  /** Comparing two concatenations whose first parts have the same length
      compares the first parts and, only when they are equal, the second. */
  lemma {:induction false} LeConcat(a1: string, b1: string, a2: string, b2: string)
    requires |a1| == |a2|
    ensures Le(a1 + b1, a2 + b2) <==> (a1 != a2 && Le(a1, a2)) || (a1 == a2 && Le(b1, b2))
  {
    if |a1| == 0 {
      assert a1 + b1 == b1 && a2 + b2 == b2;
    } else {
      assert (a1 + b1)[0] == a1[0] && (a2 + b2)[0] == a2[0];
      assert (a1 + b1)[1..] == a1[1..] + b1 && (a2 + b2)[1..] == a2[1..] + b2;
      LeConcat(a1[1..], b1, a2[1..], b2);
      assert a1 == [a1[0]] + a1[1..] && a2 == [a2[0]] + a2[1..];
    }
  }

  /* ---------------- Decimal digits ---------------- */

  function Pow10(w: nat): (p: nat)
    ensures p >= 1
  {
    if w == 0 then 1 else 10 * Pow10(w - 1)
  }

  function Digit(n: nat): char
    requires n < 10
  {
    ('0' as int + n) as char
  }

  predicate IsDigit(c: char)
  {
    '0' <= c <= '9'
  }

  /** The last `w` decimal digits of `n`, with leading zeros (`%0wd` for a
      number below 10^w). */
  function Pad(n: nat, w: nat): (s: string)
    ensures |s| == w
    ensures forall k :: 0 <= k < w ==> IsDigit(s[k])
  {
    if w == 0 then [] else Pad(n / 10, w - 1) + [Digit(n % 10)]
  }

  /** Fixed-width digit strings compare like the numbers they spell. */
  lemma {:induction false} PadOrder(n: nat, m: nat, w: nat)
    requires n < Pow10(w) && m < Pow10(w)
    ensures Le(Pad(n, w), Pad(m, w)) <==> n <= m
    ensures Pad(n, w) == Pad(m, w) <==> n == m
  {
    if w > 0 {
      assert n / 10 < Pow10(w - 1) && m / 10 < Pow10(w - 1);
      PadOrder(n / 10, m / 10, w - 1);
      var dn, dm := [Digit(n % 10)], [Digit(m % 10)];
      LeConcat(Pad(n / 10, w - 1), dn, Pad(m / 10, w - 1), dm);
      assert Le(dn, dm) <==> n % 10 <= m % 10;
      assert n == 10 * (n / 10) + n % 10 && m == 10 * (m / 10) + m % 10;
      if Pad(n, w) == Pad(m, w) {
        assert Pad(n, w)[..w - 1] == Pad(n / 10, w - 1);
        assert Pad(m, w)[..w - 1] == Pad(m / 10, w - 1);
        assert Pad(n, w)[w - 1] == Digit(n % 10) && Pad(m, w)[w - 1] == Digit(m % 10);
      }
    }
  }

  /** Python `str(n)` for a natural number: decimal digits, no leading zeros. */
  function Decimal(n: nat): (s: string)
    ensures |s| >= 1
    ensures forall k :: 0 <= k < |s| ==> IsDigit(s[k])
  {
    if n < 10 then [Digit(n)] else Decimal(n / 10) + [Digit(n % 10)]
  }

  /** Python `str(n)` for any integer. */
  function IntText(n: int): string
  {
    if n < 0 then "-" + Decimal(-n) else Decimal(n)
  }

  /** Python `f'{n:02}'`: at least two characters, zero-filled after the sign. */
  function ZeroPad2(n: int): string
  {
    if n < 0 then "-" + Decimal(-n)
    else if n < 10 then "0" + Decimal(n)
    else Decimal(n)
  }

  /** A decimal string is at most `w` characters long exactly when the number
      is below 10^w. */
  lemma {:induction false} DecimalWidth(n: nat, w: nat)
    requires w >= 1
    ensures |Decimal(n)| <= w <==> n < Pow10(w)
  {
    if n >= 10 {
      if w > 1 {
        DecimalWidth(n / 10, w - 1);
      }
    } else {
      assert Pow10(w) == 10 * Pow10(w - 1);
    }
  }

  /** A four-digit year prints as its own zero-free four-digit string. */
  lemma FourDigitDecimal(n: nat)
    requires 1000 <= n < 10000
    ensures Decimal(n) == Pad(n, 4)
  {
    var a, b, c := n / 10, n / 100, n / 1000;
    assert a / 10 == b && b / 10 == c && c / 10 == 0 && c % 10 == c;
    assert Decimal(c) == [Digit(c)] == Pad(c, 1);
    assert Decimal(b) == Decimal(c) + [Digit(b % 10)] == Pad(b, 2);
    assert Decimal(a) == Decimal(b) + [Digit(a % 10)] == Pad(a, 3);
    assert Decimal(n) == Decimal(a) + [Digit(n % 10)] == Pad(n, 4);
  }

  /** `f'{n:02}'` matches a two-digit field exactly for the number it spells. */
  lemma ZeroPad2Matches(n: int, k: nat)
    requires k < 100
    ensures ZeroPad2(n) == Pad(k, 2) <==> n == k
  {
    if n < 0 {
      assert ZeroPad2(n)[0] == '-' && IsDigit(Pad(k, 2)[0]);
    } else if n < 100 {
      assert ZeroPad2(n) == Pad(n, 2) by {
        if n >= 10 {
          assert Decimal(n / 10) == [Digit(n / 10)];
        }
      }
      PadOrder(n, k, 2);
    } else {
      DecimalWidth(n, 2);
    }
  }

  /* ---------------- Python str.strip() ---------------- */

  /** Python's `str.isspace()` on one character. */
  predicate IsSpace(c: char)
  {
    var n := c as int;
    (9 <= n <= 13) || (28 <= n <= 32) || n == 0x85 || n == 0xA0 || n == 0x1680
    || (0x2000 <= n <= 0x200A) || n == 0x2028 || n == 0x2029 || n == 0x202F
    || n == 0x205F || n == 0x3000
  }

  predicate IsBlank(s: string)
  {
    forall k :: 0 <= k < |s| ==> IsSpace(s[k])
  }

  /** `s.lstrip()`: the suffix left after dropping leading whitespace. */
  function LStrip(s: string): (r: string)
    ensures |r| <= |s| && r == s[|s| - |r|..]
    ensures IsBlank(s[..|s| - |r|])
    ensures r == [] || !IsSpace(r[0])
  {
    if |s| > 0 && IsSpace(s[0]) then LStrip(s[1..]) else s
  }

  /** `s.rstrip()`: the prefix left after dropping trailing whitespace. */
  function RStrip(s: string): (r: string)
    ensures |r| <= |s| && r == s[..|r|]
    ensures IsBlank(s[|r|..])
    ensures r == [] || !IsSpace(r[|r| - 1])
  {
    if |s| > 0 && IsSpace(s[|s| - 1]) then
      var r := RStrip(s[..|s| - 1]);
      assert s[..|s| - 1][..|r|] == s[..|r|];
      assert s[|r|..] == s[..|s| - 1][|r|..] + [s[|s| - 1]];
      r
    else s
  }

  /** `s.strip()`. */
  function Strip(s: string): (r: string)
  {
    RStrip(LStrip(s))
  }

  /** `s.strip()` is the slice of `s` between the first and the last
      non-whitespace character: everything cut off is whitespace and the
      slice neither starts nor ends with whitespace. */
  lemma StripSlice(s: string) returns (i: nat, j: nat)
    ensures i <= j <= |s| && Strip(s) == s[i..j]
    ensures IsBlank(s[..i]) && IsBlank(s[j..])
    ensures i < j ==> !IsSpace(s[i]) && !IsSpace(s[j - 1])
  {
    var l := LStrip(s);
    var r := RStrip(l);
    i := |s| - |l|;
    j := i + |r|;
    assert s[i..j] == l[..|r|];
    assert s[j..] == l[|r|..];
  }

  /** A stripped name is empty exactly when the input was all whitespace. */
  lemma StripEmptyIffBlank(s: string)
    ensures Strip(s) == [] <==> IsBlank(s)
  {
    var i, j := StripSlice(s);
    if i < j {
      assert !IsSpace(s[i]);
    }
    if Strip(s) == [] {
      assert i == j;
      forall k | 0 <= k < |s| ensures IsSpace(s[k]) {
        if k < i {
          assert s[k] == s[..i][k];
        } else {
          assert s[k] == s[j..][k - j];
        }
      }
    }
  }

  /** Stripping twice is stripping once. */
  lemma StripIdempotent(s: string)
    ensures Strip(Strip(s)) == Strip(s)
  {
    var t := Strip(s);
    if t != [] {
      assert !IsSpace(t[0]) && !IsSpace(t[|t| - 1]) by {
        var i, j := StripSlice(s);
      }
      assert LStrip(t) == t;
      assert RStrip(t) == t;
    }
  }
}
