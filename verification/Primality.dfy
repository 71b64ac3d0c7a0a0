/** Trial division by 6k-1 and 6k+1, as the load generator of the process monitor does it on 64-bit integers. */
module Primality {
  import opened Common

  newtype Int64 = x: int | -0x8000_0000_0000_0000 <= x < 0x8000_0000_0000_0000

  /** The largest divisor candidate whose square fits in 64 bits; the next one is six larger. */
  const LARGEST: int := 3_037_000_499

  ghost predicate Divides(d: int, n: int) {
    d != 0 && n % d == 0
  }

  ghost predicate Prime(n: int) {
    n > 1 && forall d :: 1 < d < n ==> !Divides(d, n)
  }

  ghost predicate Candidate(j: int) {
    j >= 5 && j % 6 == 5
  }

  /** Everything tried before the loop arrives at `i` failed to divide `n`. */
  ghost predicate Survived(n: int, i: int) {
    && n > 3 && !Divides(2, n) && !Divides(3, n)
    && forall j :: Candidate(j) && j < i ==> !Divides(j, n) && !Divides(j + 2, n)
  }

  lemma DividesIntro(d: int, n: int, k: int)
    requires d > 0 && n == k * d
    ensures Divides(d, n)
  {
    ModUnique(n, k, 0, d);
  }

  lemma DividesElim(d: int, n: int) returns (k: int)
    requires Divides(d, n)
    ensures n == k * d
  {
    k := n / d;
  }

  lemma DividesTrans(c: int, d: int, n: int)
    requires c > 0 && Divides(c, d) && Divides(d, n)
    ensures Divides(c, n)
  {
    var k := DividesElim(c, d);
    var m := DividesElim(d, n);
    assert n == m * (k * c) == m * k * c;
    DividesIntro(c, n, m * k);
  }

  lemma SquareMonotone(x: int, y: int)
    requires 0 <= x <= y
    ensures x * x <= y * y
  {
    assert x * x <= x * y <= y * y;
  }

  /** Every number below the loop variable is a multiple of two or three, or was tried. */
  lemma NothingBelow(n: int, i: int, d: int)
    requires Candidate(i) && Survived(n, i) && 1 < d < i
    ensures !Divides(d, n)
  {
    hide Divides;
    var r := d % 6;
    assert d == d / 6 * 6 + r && r in {0, 1, 2, 3, 4, 5};
    if r == 5 {
      assert Candidate(d);
    } else if r == 1 {
      assert Candidate(d - 2) && !Divides(d - 2 + 2, n);
    } else if r == 3 {
      MultipleFails(3, d, n, d / 6 * 2 + 1);
    } else {
      MultipleFails(2, d, n, d / 6 * 3 + r / 2);
    }
  }

  lemma MultipleFails(c: int, d: int, n: int, k: int)
    requires c > 0 && d == k * c && !Divides(c, n)
    ensures !Divides(d, n)
  {
    hide Divides;
    DividesIntro(c, d, k);
    if Divides(d, n) { DividesTrans(c, d, n); }
  }

  /** Surviving past the square root means being prime. */
  lemma SurvivorsPrime(n: int, i: int)
    requires Candidate(i) && Survived(n, i) && n < i * i
    ensures Prime(n)
  {
    hide Divides, Survived;
    forall d | 1 < d < n ensures !Divides(d, n) {
      if Divides(d, n) {
        var k := DividesElim(d, n);
        Cofactor(n, d, k);
        DividesIntro(k, n, d);
        var small := if d <= k then d else k;
        SmallFactor(n, d, k, i);
        NothingBelow(n, i, small);
      }
    }
    AboveThree(n, i);
  }

  lemma AboveThree(n: int, i: int)
    requires Survived(n, i)
    ensures n > 3
  {
  }

  lemma Cofactor(n: int, d: int, k: int)
    requires 1 < d < n && n == k * d
    ensures 1 < k < n && n == d * k
  {
    if k <= 1 { if k < 1 { MulGap(1, k, d); } }
    else { MulGap(d, 1, k); }
  }

  lemma SmallFactor(n: int, d: int, k: int, i: int)
    requires 0 < d && 0 < k && n == k * d && n < i * i && i > 0
    ensures d < i || k < i
  {
    if d >= i && k >= i { ProductAtLeast(i, k, d); }
  }

  lemma ProductAtLeast(i: int, k: int, d: int)
    requires 0 < i <= k && i <= d
    ensures i * i <= k * d
  {
    if k > i { MulGap(k, i, i); }
    if d > i { MulGap(d, i, k); }
  }

  /** The last square the loop can form without leaving 64 bits. */
  lemma LargestSquare(i: int)
    requires Candidate(i)
    ensures i <= LARGEST ==> i * i <= LARGEST * LARGEST < 0x8000_0000_0000_0000
    ensures i > LARGEST ==> i >= LARGEST + 6 && i * i >= 0x8000_0000_0000_0000
    ensures i * i < LARGEST * LARGEST ==> i + 6 <= LARGEST
  {
    if i <= LARGEST {
      SquareMonotone(i, LARGEST);
    } else {
      SquareMonotone(LARGEST + 6, i);
    }
    if i >= LARGEST { SquareMonotone(LARGEST, i); }
  }

  method IsPrime(n: Int64) returns (r: int)
    requires n as int < LARGEST * LARGEST
    ensures r == if Prime(n as int) then 1 else 0
  {
    hide Divides;
    if n <= 1 { return 0; }
    if n <= 3 { SmallPrimes(); return 1; }
    if n % 2 == 0 || n % 3 == 0 {
      Composite(n as int, if n % 2 == 0 then 2 else 3);
      return 0;
    }
    StartSurvived(n as int);
    var i: Int64 := 5;
    LargestSquare(5);
    while i * i <= n
      invariant Candidate(i as int) && i as int <= LARGEST && i as int * i as int <= LARGEST * LARGEST
      invariant Survived(n as int, i as int)
      decreases n - i
    {
      ghost var j := i as int;
      LargestSquare(j);
      BelowSquare(n as int, j);
      if n % i == 0 || n % (i + 2) == 0 {
        Composite(n as int, if n % i == 0 then j else j + 2);
        return 0;
      }
      SurviveMore(n as int, j);
      i := i + 6;
      LargestSquare(j + 6);
    }
    SurvivorsPrime(n as int, i as int);
    return 1;
  }

  lemma SmallPrimes()
    ensures Prime(2) && Prime(3)
  {
  }

  lemma Composite(n: int, d: int)
    requires 1 < d < n && n % d == 0
    ensures !Prime(n)
  {
    assert Divides(d, n);
  }

  lemma StartSurvived(n: int)
    requires n > 3 && n % 2 != 0 && n % 3 != 0
    ensures Survived(n, 5)
  {
  }

  lemma BelowSquare(n: int, i: int)
    requires i >= 5 && i * i <= n
    ensures i + 2 < n
  {
    MulGap(i, 2, i);
  }

  lemma SurviveMore(n: int, i: int)
    requires Candidate(i) && Survived(n, i) && n % i != 0 && n % (i + 2) != 0
    ensures Candidate(i + 6) && Survived(n, i + 6)
  {
    hide Divides, Candidate;
    NextCandidate(i, i);
    assert !Divides(i, n) && !Divides(i + 2, n) by { NotDividing(i, n); NotDividing(i + 2, n); }
    forall j | Candidate(j) && j < i + 6 ensures !Divides(j, n) && !Divides(j + 2, n) {
      if j >= i { NextCandidate(i, j); }
    }
  }

  lemma NotDividing(d: int, n: int)
    requires d != 0 && n % d != 0
    ensures !Divides(d, n)
  {
  }

  lemma NextCandidate(i: int, j: int)
    requires Candidate(i) && Candidate(j) && i <= j < i + 6
    ensures j == i && i >= 5 && Candidate(i + 6)
  {
  }

  /** The loop arrives at `i`: every earlier candidate passed the guard and divided nothing. */
  ghost predicate Arrives(n: int, i: int) {
    Candidate(i) && Survived(n, i) && forall j :: Candidate(j) && j < i ==> j * j <= n
  }

  /**
   * From the bound of `IsPrime` on, the loop squares a number that does not fit exactly when `n` is prime;
   * a composite is found out before.
   */
  lemma OverflowsExactlyOnPrimes(n: int)
    requires LARGEST * LARGEST <= n < 0x8000_0000_0000_0000
    ensures (exists i :: Arrives(n, i) && i * i >= 0x8000_0000_0000_0000) <==> Prime(n)
  {
    if Prime(n) {
      PrimesArrive(n);
      LargestSquare(LARGEST + 6);
    }
    if i :| Arrives(n, i) && i * i >= 0x8000_0000_0000_0000 {
      SurvivorsPrime(n, i);
    }
  }

  lemma PrimesArrive(n: int)
    requires Prime(n) && LARGEST * LARGEST <= n
    ensures Arrives(n, LARGEST + 6)
  {
    hide Divides;
    assert LARGEST + 2 < LARGEST * LARGEST;
    forall j | Candidate(j) && j < LARGEST + 6
      ensures !Divides(j, n) && !Divides(j + 2, n) && j * j <= n
    {
      LargestSquare(j);
    }
  }
}
