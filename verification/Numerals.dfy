/** Positional numerals: what a string of digits denotes, and the one string without leading zeros that denotes it. */
module Numerals {
  import opened Common

  function Digit(d: nat): (c: char)
    requires d < 16
  {
    if d < 10 then '0' + d as char else 'a' + (d - 10) as char
  }

  function Value(c: char): (d: nat) {
    if '0' <= c <= '9' then (c - '0') as nat
    else if 'a' <= c <= 'f' then (c - 'a') as nat + 10
    else 16
  }

  lemma ValueOfDigit(d: nat)
    requires d < 16
    ensures Value(Digit(d)) == d
    ensures Digit(d) == "0123456789abcdef"[d]
    ensures Digit(d) != '\0' && Digit(d) != '-'
    ensures Digit(d) == '0' <==> d == 0
  {
  }

  lemma ZeroValue()
    ensures Value('0') == 0 && Value('-') == 16
  {
  }

  /** `s` is a string of digits in base `b`. */
  ghost predicate IsNumeral(s: string, b: nat) {
    forall i :: 0 <= i < |s| ==> Value(s[i]) < b
  }

  function Power(b: nat, k: nat): (p: nat) {
    if k == 0 then 1 else b * Power(b, k - 1)
  }

  /** The number a string of digits denotes, most significant digit first. */
  function Denotes(s: string, b: nat): (v: nat) {
    if s == "" then 0 else Denotes(s[..|s| - 1], b) * b + Value(s[|s| - 1])
  }

  /** The digits of `v`, without leading zeros. */
  function Numeral(v: nat, b: nat): (s: string)
    requires 2 <= b <= 16
    ensures s != ""
  {
    if v < b then [Digit(v)] else Numeral(v / b, b) + [Digit(v % b)]
  }

  lemma ShiftBelow(x: nat, d: nat, b: nat, p: nat)
    requires x < p && d < b
    ensures x * b + d < b * p
  {
    assert (x + 1) * b <= p * b;
  }

  lemma ShiftAbove(x: nat, b: nat, p: nat)
    requires p <= x
    ensures b * p <= x * b
  {
  }

  /** Shifting a digit in loses nothing: both parts can be read off the sum. */
  lemma ShiftUnique(x: nat, d: nat, y: nat, e: nat, b: nat)
    requires d < b && e < b && x * b + d == y * b + e
    ensures x == y && d == e
  {
    if x > y { MulGap(x, y, b); } else if x < y { MulGap(y, x, b); }
  }

  lemma Regroup(x: nat, y: nat, b: nat, t: nat)
    ensures (x * y + t) * b == x * (b * y) + t * b
  {
    assert x * y * b == x * (b * y);
  }

  lemma {:induction false} DenotesBelow(s: string, b: nat)
    requires IsNumeral(s, b)
    ensures Denotes(s, b) < Power(b, |s|)
  {
    hide Value;
    if s != "" {
      var front, last := s[..|s| - 1], s[|s| - 1];
      DenotesBelow(front, b);
      ShiftBelow(Denotes(front, b), Value(last), b, Power(b, |front|));
    }
  }

  lemma {:induction false} DenotesConcat(s: string, t: string, b: nat)
    ensures Denotes(s + t, b) == Denotes(s, b) * Power(b, |t|) + Denotes(t, b)
  {
    hide Value;
    if t == "" {
      assert s + t == s;
      assert Denotes(s, b) * 1 == Denotes(s, b);
    } else {
      var front, last := t[..|t| - 1], t[|t| - 1];
      assert (s + t)[..|s + t| - 1] == s + front;
      DenotesConcat(s, front, b);
      assert Denotes(s + t, b) == Denotes(s + front, b) * b + Value(last);
      Regroup(Denotes(s, b), Power(b, |front|), b, Denotes(front, b));
    }
  }

  lemma DivPositive(v: nat, b: nat)
    requires 0 < b <= v
    ensures v / b > 0 && v == v / b * b + v % b && v % b < b
  {
    var q := v / b;
    assert v == q * b + v % b;
    if q <= 0 { MulGap(1, q, b); }
  }

  lemma NumeralSmall(v: nat, b: nat)
    requires 2 <= b <= 16 && v < b
    ensures Numeral(v, b) == [Digit(v)]
  {
  }

  lemma NumeralSplit(v: nat, b: nat)
    requires 2 <= b <= 16 && b <= v
    ensures 0 <= v % b < b && 0 <= v / b
    ensures Numeral(v, b) == Numeral(v / b, b) + [Digit(v % b)]
  {
  }

  /** Peeling the last digit off. */
  lemma NumeralStep(v: nat, b: nat) returns (q: nat, d: nat)
    requires 2 <= b <= 16 && b <= v
    ensures 0 < q < v && d < b && v == q * b + d
    ensures Numeral(v, b) == Numeral(q, b) + [Digit(d)]
  {
    q, d := v / b, v % b;
    DivPositive(v, b);
  }

  /** A numeral denotes its number, and has no leading zero. */
  lemma {:induction false} NumeralDenotes(v: nat, b: nat)
    requires 2 <= b <= 16
    ensures IsNumeral(Numeral(v, b), b) && Denotes(Numeral(v, b), b) == v
    ensures Numeral(v, b)[0] == '0' <==> v == 0
    ensures v == 0 ==> Numeral(v, b) == "0"
  {
    hide Value, Digit, Numeral;
    var s := Numeral(v, b);
    if v < b {
      NumeralSmall(v, b);
      ValueOfDigit(v);
      assert s[..0] == "" && Denotes("", b) * b == 0;
    } else {
      var q, d := NumeralStep(v, b);
      NumeralDenotes(q, b);
      ValueOfDigit(d);
      assert s[..|s| - 1] == Numeral(q, b);
    }
  }

  /** Two digit strings of the same length that denote the same number are equal. */
  lemma {:induction false} SameLengthSameValue(s: string, t: string, b: nat)
    requires b <= 16 && IsNumeral(s, b) && IsNumeral(t, b)
    requires |s| == |t| && Denotes(s, b) == Denotes(t, b)
    ensures s == t
  {
    hide Value;
    if s != "" {
      var n := |s| - 1;
      ShiftUnique(Denotes(s[..n], b), Value(s[n]), Denotes(t[..n], b), Value(t[n]), b);
      SameLengthSameValue(s[..n], t[..n], b);
      SameDigit(s[n], t[n]);
      assert s == s[..n] + [s[n]] && t == t[..n] + [t[n]];
    }
  }

  lemma SameDigit(c: char, d: char)
    requires Value(c) == Value(d) < 16
    ensures c == d
  {
  }

  lemma {:induction false} PowerMonotone(b: nat, j: nat, k: nat)
    requires b >= 1 && j <= k
    ensures 1 <= Power(b, j) <= Power(b, k)
    decreases k
  {
    if j > 0 {
      PowerMonotone(b, j - 1, k - 1);
      ShiftAbove(Power(b, k - 1), b, Power(b, j - 1));
      ShiftAbove(Power(b, j - 1), b, 1);
    } else if k > 0 {
      PowerMonotone(b, 0, k - 1);
    }
  }

  /** The digits needed: at most `k` exactly for the numbers below `b` to the `k`. */
  lemma {:induction false} NumeralLength(v: nat, b: nat, k: nat)
    requires 2 <= b <= 16 && k > 0
    ensures |Numeral(v, b)| <= k <==> v < Power(b, k)
  {
    hide Digit, Numeral;
    assert Power(b, 1) == b * Power(b, 0) == b;
    if v < b {
      NumeralSmall(v, b);
      PowerMonotone(b, 1, k);
    } else {
      var q, d := NumeralStep(v, b);
      if k > 1 {
        NumeralLength(q, b, k - 1);
        var p := Power(b, k - 1);
        if q < p { ShiftBelow(q, d, b, p); } else { ShiftAbove(q, b, p); }
      }
    }
  }

  /** The last `n` characters, or all when there are fewer. */
  function Last(s: string, n: nat): (t: string) {
    if |s| <= n then s else s[|s| - n..]
  }

  /** Keeping the last `n` digits keeps the number modulo `b` to the `n`. */
  lemma LastDigits(v: nat, b: nat, n: nat)
    requires 2 <= b <= 16 && n > 0
    ensures Power(b, n) > 0
    ensures IsNumeral(Last(Numeral(v, b), n), b)
    ensures Denotes(Last(Numeral(v, b), n), b) == v % Power(b, n)
    ensures v < Power(b, n) ==> Last(Numeral(v, b), n) == Numeral(v, b)
  {
    hide Numeral, Denotes, Value, Power;
    var s := Numeral(v, b);
    PowerMonotone(b, 0, n);
    NumeralDenotes(v, b);
    NumeralLength(v, b, n);
    if |s| > n {
      var high, low := s[..|s| - n], s[|s| - n..];
      assert s == high + low;
      DenotesConcat(high, low, b);
      DenotesBelow(low, b);
      ModUnique(v, Denotes(high, b), Denotes(low, b), Power(b, n));
    } else {
      ModUnique(v, 0, v, Power(b, n));
    }
  }

  lemma {:induction false} AllZeros(zeros: string, b: nat)
    requires forall i :: 0 <= i < |zeros| ==> zeros[i] == '0'
    ensures Denotes(zeros, b) == 0
  {
    if zeros != "" {
      AllZeros(zeros[..|zeros| - 1], b);
      assert Denotes(zeros[..|zeros| - 1], b) * b == 0;
    }
  }

  /** Leading zeros do not change what a numeral denotes. */
  lemma ZerosInFront(zeros: string, s: string, b: nat)
    requires b > 0 && IsNumeral(s, b)
    requires forall i :: 0 <= i < |zeros| ==> zeros[i] == '0'
    ensures IsNumeral(zeros + s, b) && Denotes(zeros + s, b) == Denotes(s, b)
  {
    DenotesConcat(zeros, s, b);
    AllZeros(zeros, b);
    ZeroValue();
    assert 0 * Power(b, |s|) == 0;
  }

  /** A signed decimal, as `%d` is to print it, and how it reads back. */
  function Signed(v: int): (s: string) {
    if v < 0 then "-" + Numeral(-v, 10) else Numeral(v, 10)
  }

  function ReadSigned(s: string): (v: int) {
    if s != "" && s[0] == '-' then 0 - Denotes(s[1..], 10) else Denotes(s, 10)
  }

  lemma SignedReadsBack(v: int)
    ensures ReadSigned(Signed(v)) == v
    ensures Signed(v) != "" && (Signed(v)[0] == '-' <==> v < 0)
  {
    hide Numeral, Denotes, Value;
    var a: nat := if v < 0 then -v else v;
    NumeralDenotes(a, 10);
    ZeroValue();
    assert Value(Numeral(a, 10)[0]) < 10;
    assert ("-" + Numeral(a, 10))[1..] == Numeral(a, 10);
  }

  lemma PowersOfTen()
    ensures Power(10, 19) == 10_000_000_000_000_000_000
    ensures Power(10, 10) == 10_000_000_000
  {
    assert Power(10, 5) == 100_000;
    assert Power(10, 10) == 10 * 10 * 10 * 10 * 10 * Power(10, 5);
    assert Power(10, 15) == 10 * 10 * 10 * 10 * 10 * Power(10, 10);
    assert Power(10, 19) == 10 * 10 * 10 * 10 * Power(10, 15);
  }

  lemma PowersOfSixteen()
    ensures Power(16, 16) == 0x1_0000_0000_0000_0000
    ensures Power(16, 8) == 0x1_0000_0000
  {
    assert Power(16, 4) == 0x1_0000;
    assert Power(16, 8) == 16 * 16 * 16 * 16 * Power(16, 4);
    assert Power(16, 12) == 16 * 16 * 16 * 16 * Power(16, 8);
    assert Power(16, 16) == 16 * 16 * 16 * 16 * Power(16, 12);
  }
}
