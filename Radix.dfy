/** `Number.prototype.toString(radix)` on non-negative integers, and the matching decoder.
    The application renders the order id in base 36 and phone and student numbers in base 10. */
module Radix {
  import Text

  /** The digit for `d`: `0`-`9`, then the lower-case letters, as `toString` writes them. */
  function DigitChar(d: nat): (c: char)
    requires d < 36
    ensures d < 10 ==> Text.IsDigit(c)
    ensures d >= 10 ==> Text.IsLower(c)
  {
    if d < 10 then ('0' as int + d) as char else ('a' as int + d - 10) as char
  }

  /** The value of a digit in either letter case; -1 for a character that is no digit. */
  function DigitValue(c: char): (d: int)
    ensures -1 <= d < 36
  {
    if Text.IsDigit(c) then c as int - '0' as int
    else if Text.IsLower(c) then c as int - 'a' as int + 10
    else if Text.IsUpper(c) then c as int - 'A' as int + 10
    else -1
  }

  /** `n.toString(b)`: the digits of `n` in base `b`, most significant first, without leading zeros. */
  function ToRadix(n: nat, b: nat): (s: string)
    requires 2 <= b <= 36
    ensures |s| >= 1
    ensures forall i :: 0 <= i < |s| ==> 0 <= DigitValue(s[i]) < b
    decreases n
  {
    if n < b then [DigitChar(n)]
    else
      DivMod(n, b);
      ToRadix(n / b, b) + [DigitChar(n % b)]
  }

  /** Euclidean division by a base: the facts the digit recursion relies on. */
  lemma DivMod(n: nat, b: nat)
    requires b >= 2
    ensures n == b * (n / b) + n % b && 0 <= n % b < b
    ensures n >= b ==> 1 <= n / b < n
  {
  }

  lemma DigitRoundTrip(d: nat)
    requires d < 36
    ensures DigitValue(DigitChar(d)) == d
  {
  }

  /** Reads a string of digits in base `b` back into a number (`parseInt(s, b)` on valid input). */
  function FromRadix(s: string, b: nat): int
    decreases |s|
  {
    if s == [] then 0 else FromRadix(s[..|s| - 1], b) * b + DigitValue(s[|s| - 1])
  }

  function Pow(b: nat, k: nat): (p: nat)
    ensures b >= 1 ==> p >= 1
  {
    if k == 0 then 1 else b * Pow(b, k - 1)
  }

  /** Decoding the rendered digits gives the number back. */
  lemma {:induction false} FromToRadix(n: nat, b: nat)
    requires 2 <= b <= 36
    ensures FromRadix(ToRadix(n, b), b) == n
    decreases n
  {
    if n < b {
      FromToRadixDigit(n, b);
    } else {
      var q, d := n / b, n % b;
      DigitRoundTrip(d);
      Recompose(n, b);
      FromToRadix(q, b);
      FromRadixSnoc(ToRadix(q, b), DigitChar(d), b);
    }
  }

  /** A single digit decodes to itself. */
  lemma FromToRadixDigit(n: nat, b: nat)
    requires 2 <= b <= 36 && n < b
    ensures FromRadix(ToRadix(n, b), b) == n
  {
    DigitRoundTrip(n);
    FromRadixSnoc([], DigitChar(n), b);
    assert [] + [DigitChar(n)] == ToRadix(n, b);
  }

  /** Dividing by the base and multiplying back, plus the remainder, gives the number. */
  lemma Recompose(n: nat, b: nat)
    requires b >= 2
    ensures n >= b ==> 1 <= n / b < n
    ensures (n / b) * b + n % b == n
  {
    DivMod(n, b);
  }

  /** Appending a digit multiplies the value read so far by the base and adds the digit. */
  lemma FromRadixSnoc(p: string, c: char, b: nat)
    ensures FromRadix(p + [c], b) == FromRadix(p, b) * b + DigitValue(c)
  {
    assert (p + [c])[..|p|] == p;
  }

  /** Upper-casing the digits (as `toUpperCase` does) keeps every digit's value. */
  lemma {:induction false} FromRadixUpper(s: string, b: nat)
    ensures FromRadix(Text.Upper(s), b) == FromRadix(s, b)
    decreases |s|
  {
    if s != [] {
      var u := Text.Upper(s);
      assert u[..|u| - 1] == Text.Upper(s[..|s| - 1]);
      FromRadixUpper(s[..|s| - 1], b);
    }
  }

  /** A number with `k` digits in base `b` renders as exactly `k` characters. */
  lemma {:induction false} ToRadixLength(n: nat, b: nat, k: nat)
    requires 2 <= b <= 36 && k >= 1
    requires Pow(b, k - 1) <= n < Pow(b, k)
    ensures |ToRadix(n, b)| == k
    decreases k
  {
    if k == 1 {
      assert n < b;
    } else {
      var p := Pow(b, k - 2);
      assert Pow(b, k - 1) == b * p;
      assert Pow(b, k) == b * (b * p);
      MulAtLeast(b, p);
      DivBounds(n, b, p);
      ToRadixLength(n / b, b, k - 1);
      DivMod(n, b);
      assert ToRadix(n, b) == ToRadix(n / b, b) + [DigitChar(n % b)];
    }
  }

  lemma MulAtLeast(b: nat, p: nat)
    requires p >= 1
    ensures b * p >= b
  {
  }

  lemma DivBounds(n: nat, b: nat, p: nat)
    requires b >= 2 && p >= 1 && b * p <= n < b * (b * p)
    ensures p <= n / b < b * p
  {
    DivMod(n, b);
    var q := n / b;
    assert b * p < b * (q + 1);
    MulCancel(b, p, q + 1);
    assert b * q < b * (b * p);
    MulCancel(b, q, b * p);
  }

  lemma MulCancel(b: nat, x: int, y: int)
    requires b > 0 && b * x < b * y
    ensures x < y
  {
  }

  /** A positive number never renders with a leading zero. */
  lemma {:induction false} ToRadixLeadingDigit(n: nat, b: nat)
    requires 2 <= b <= 36 && n > 0
    ensures ToRadix(n, b)[0] != '0'
    decreases n
  {
    if n >= b {
      DivMod(n, b);
      ToRadixLeadingDigit(n / b, b);
    }
  }
}
