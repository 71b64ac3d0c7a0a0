/** Small facts about sequences shared by the models. */
module Common {
  datatype Option<+T> = None | Some(value: T)

  ghost predicate Distinct(xs: seq<nat>) {
    forall i, j :: 0 <= i < j < |xs| ==> xs[i] != xs[j]
  }

  /** `xs` without the element `x`, order kept. */
  function Without(xs: seq<nat>, x: nat): (r: seq<nat>)
    ensures x !in r
    ensures forall y :: y in r <==> y in xs && y != x
  {
    if xs == [] then []
    else if xs[0] == x then Without(xs[1..], x)
    else [xs[0]] + Without(xs[1..], x)
  }

  lemma WithoutAbsent(xs: seq<nat>, x: nat)
    requires x !in xs
    ensures Without(xs, x) == xs
  {
  }

  /** Removing one occurrence from a duplicate-free sequence is cutting it out. */
  lemma {:induction false} WithoutAt(xs: seq<nat>, k: nat)
    requires Distinct(xs) && k < |xs|
    ensures Without(xs, xs[k]) == xs[..k] + xs[k + 1..]
  {
    if k == 0 {
      WithoutAbsent(xs[1..], xs[0]);
      assert xs[..0] + xs[1..] == xs[1..];
    } else {
      WithoutAt(xs[1..], k - 1);
      assert xs[1..][k - 1] == xs[k];
      assert xs[..k] + xs[k + 1..] == [xs[0]] + (xs[1..][..k - 1] + xs[1..][k..]);
    }
  }

  lemma WithoutDistinct(xs: seq<nat>, x: nat)
    requires Distinct(xs)
    ensures Distinct(Without(xs, x))
  {
    if x in xs {
      var k :| 0 <= k < |xs| && xs[k] == x;
      WithoutAt(xs, k);
    } else {
      WithoutAbsent(xs, x);
    }
  }

  /** Pigeonhole: duplicate-free numbers below `n` are at most `n` many. */
  lemma {:induction false} DistinctBelow(xs: seq<nat>, n: nat)
    requires Distinct(xs)
    requires forall x :: x in xs ==> x < n
    ensures |xs| <= n
  {
    if n == 0 {
      assert forall k :: 0 <= k < |xs| ==> xs[k] in xs;
    } else if n - 1 in xs {
      var k :| 0 <= k < |xs| && xs[k] == n - 1;
      WithoutAt(xs, k);
      WithoutDistinct(xs, n - 1);
      DistinctBelow(Without(xs, n - 1), n - 1);
    } else {
      DistinctBelow(xs, n - 1);
    }
  }

  lemma MulGap(p: int, q: int, n: int)
    requires p > q && n > 0
    ensures p * n >= q * n + n
  {
    var k := p - q - 1;
    assert p * n == q * n + n + k * n;
  }

  lemma ModUnique(a: int, q: int, t: int, n: int)
    requires n > 0 && a == q * n + t && 0 <= t < n
    ensures a % n == t
  {
    var q', t' := a / n, a % n;
    assert a == q' * n + t';
    if q' > q { MulGap(q', q, n); } else if q' < q { MulGap(q, q', n); }
  }

  lemma ModSuccessor(a: nat, n: nat)
    requires n > 0
    ensures (a % n + 1) % n == (a + 1) % n == if a % n + 1 < n then a % n + 1 else 0
  {
    var q, t := a / n, a % n;
    if t + 1 < n {
      ModUnique(t + 1, 0, t + 1, n);
      ModUnique(a + 1, q, t + 1, n);
    } else {
      ModUnique(t + 1, 1, 0, n);
      assert a + 1 == (q + 1) * n;
      ModUnique(a + 1, q + 1, 0, n);
    }
  }
}
