/** Character-level helpers over PIN text and the fixed-width fields of a date. */
module Text {

  predicate IsDigit(c: char) {
    '0' <= c <= '9'
  }

  predicate AllDigits(s: string) {
    forall i :: 0 <= i < |s| ==> IsDigit(s[i])
  }

  /** The value of a decimal digit, as `int(c)` gives it. */
  function DigitValue(c: char): (v: nat)
    requires IsDigit(c)
    ensures v <= 9
  {
    c as int - '0' as int
  }

  function DigitChar(v: nat): (c: char)
    requires v <= 9
    ensures IsDigit(c) && DigitValue(c) == v
  {
    ('0' as int + v) as char
  }

  /** The decimal number a digit string denotes, most significant digit first. */
  function Decimal(s: string): nat
    requires AllDigits(s)
  {
    if s == [] then 0 else Decimal(s[..|s| - 1]) * 10 + DigitValue(s[|s| - 1])
  }

  /** `strftime` with `%d`, `%m` or `%y`: two zero-padded digits (the low two of `n`). */
  function Pad2(n: nat): (s: string)
    ensures |s| == 2 && AllDigits(s)
  {
    [DigitChar(n % 100 / 10), DigitChar(n % 10)]
  }

  /** `strftime` with `%Y`: four zero-padded digits. */
  function Pad4(n: nat): (s: string)
    ensures |s| == 4 && AllDigits(s)
  {
    Pad2(n % 10000 / 100) + Pad2(n)
  }

  lemma Pad2Decodes(n: nat)
    ensures Decimal(Pad2(n)) == n % 100
  {
    var s := Pad2(n);
    assert s[..1][..0] == [];
    assert Decimal(s[..1]) == n % 100 / 10;
  }

  lemma DecimalAppendPair(x: string, y: string)
    requires AllDigits(x) && AllDigits(y) && |y| == 2
    ensures AllDigits(x + y) && Decimal(x + y) == Decimal(x) * 100 + Decimal(y)
  {
    var xy := x + y;
    var x0 := x + [y[0]];
    assert xy[..|xy| - 1] == x0;
    assert x0[..|x0| - 1] == x;
    assert Decimal(x0) == Decimal(x) * 10 + DigitValue(y[0]);
    assert Decimal(xy) == Decimal(x0) * 10 + DigitValue(y[1]);
    assert y[..1][..0] == [];
    assert Decimal(y[..1]) == DigitValue(y[0]);
    assert Decimal(y) == DigitValue(y[0]) * 10 + DigitValue(y[1]);
  }

  lemma Pad4Decodes(n: nat)
    ensures Decimal(Pad4(n)) == n % 10000
  {
    var hi := n % 10000 / 100;
    Pad2Decodes(hi);
    Pad2Decodes(n);
    DecimalAppendPair(Pad2(hi), Pad2(n));
    FourDigitSplit(n);
  }

  /** The low four decimal digits of `n` are its hundreds pair then its units pair. */
  lemma FourDigitSplit(n: nat)
    ensures n % 10000 / 100 % 100 * 100 + n % 100 == n % 10000
  {
    var m := n % 10000;
    var hi, lo := m / 100, m % 100;
    var k := 100 * (n / 10000) + hi;
    assert n == 100 * k + lo;
    LowPair(n, k, lo);
  }

  lemma LowPair(n: int, k: int, lo: int)
    requires n == 100 * k + lo && 0 <= lo < 100
    ensures n % 100 == lo
  {
  }

  /** Python's `p in s` on strings: `p` occurs contiguously in `s`. */
  function Contains(s: string, p: string): bool
    decreases |s|
  {
    if |s| < |p| then false else s[..|p|] == p || Contains(s[1..], p)
  }

  /** `p` occurs in `s` starting at index `i`. */
  predicate OccursAt(s: string, p: string, i: int) {
    0 <= i <= |s| - |p| && s[i..i + |p|] == p
  }

  lemma {:induction false} ContainsAt(s: string, p: string)
    ensures Contains(s, p) <==> exists i :: OccursAt(s, p, i)
    decreases |s|
  {
    if |s| < |p| {
    } else if s[..|p|] == p {
      assert OccursAt(s, p, 0);
    } else {
      ContainsAt(s[1..], p);
      if Contains(s[1..], p) {
        var i :| OccursAt(s[1..], p, i);
        assert s[i + 1..i + 1 + |p|] == s[1..][i..i + |p|];
        assert OccursAt(s, p, i + 1);
      }
      if i :| OccursAt(s, p, i) {
        assert i != 0;
        assert s[1..][i - 1..i - 1 + |p|] == s[i..i + |p|];
        assert OccursAt(s[1..], p, i - 1);
      }
    }
  }

  /** Every character of a contained string occurs in the containing one. */
  lemma ContainsKeepsChars(s: string, p: string, k: nat)
    requires Contains(s, p) && k < |p|
    ensures p[k] in s
  {
    ContainsAt(s, p);
    var i :| OccursAt(s, p, i);
    assert s[i..i + |p|][k] == s[i + k];
  }

  /** A string contains nothing longer than itself. */
  lemma {:induction false} ContainsNotLonger(s: string, p: string)
    requires Contains(s, p)
    ensures |p| <= |s|
  {
  }

  /** Whatever contains `p + q` contains `p`. */
  lemma ContainsPrefix(s: string, p: string, q: string)
    requires Contains(s, p + q)
    ensures Contains(s, p)
  {
    ContainsAt(s, p + q);
    var i :| OccursAt(s, p + q, i);
    assert s[i..i + |p|] == (p + q)[..|p|] == p;
    assert OccursAt(s, p, i);
    ContainsAt(s, p);
  }

  /** Python's `s[::-1]`. */
  function Reverse(s: string): (r: string)
    ensures |r| == |s|
  {
    if s == [] then [] else Reverse(s[1..]) + [s[0]]
  }

  lemma {:induction false} ReverseAt(s: string, k: nat)
    requires k < |s|
    ensures Reverse(s)[k] == s[|s| - 1 - k]
  {
    if k < |s| - 1 {
      ReverseAt(s[1..], k);
    }
  }

  /** Python's `s * n`. */
  function Repeat(s: string, n: nat): (r: string)
    ensures |r| == |s| * n
  {
    if n == 0 then [] else s + Repeat(s, n - 1)
  }

  lemma RepeatPrefix(s: string, n: nat, k: nat)
    requires n > 0 && k < |s|
    ensures Repeat(s, n)[k] == s[k]
  {
  }

  lemma {:induction false} RepeatShift(s: string, n: nat, k: nat)
    requires |s| <= k < |Repeat(s, n)|
    ensures Repeat(s, n)[k] == Repeat(s, n)[k - |s|]
  {
    var m := |s|;
    assert Repeat(s, n)[k] == Repeat(s, n - 1)[k - m];
    if k - m < m {
      RepeatPrefix(s, n - 1, k - m);
    } else {
      RepeatShift(s, n - 1, k - m);
    }
  }
}
