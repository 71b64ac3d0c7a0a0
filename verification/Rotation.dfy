/** Turning a sequence round and round. */
module Rotation {
  import opened Common

  /** `xs` turned left `d` times: each turn moves the head to the end. */
  function Turned(xs: seq<nat>, d: nat): (r: seq<nat>)
    ensures |r| == |xs|
    decreases d
  {
    if d == 0 || xs == [] then xs else Turned(xs[1..] + [xs[0]], d - 1)
  }

  lemma {:induction false} TurnedTwice(xs: seq<nat>, d: nat, e: nat)
    ensures Turned(Turned(xs, d), e) == Turned(xs, d + e)
    decreases d
  {
    if d > 0 && xs != [] { TurnedTwice(xs[1..] + [xs[0]], d - 1, e); }
  }

  /** After `d` turns the head is element `d mod n`. */
  lemma {:induction false} TurnedHead(xs: seq<nat>, d: nat, j: nat)
    requires j < |xs|
    ensures Turned(xs, d)[j] == xs[(d + j) % |xs|]
    decreases d
  {
    var n := |xs|;
    if d == 0 {
      ModUnique(j, 0, j, n);
    } else {
      var ys := xs[1..] + [xs[0]];
      TurnedHead(ys, d - 1, j);
      var t := (d - 1 + j) % n;
      ModSuccessor(d - 1 + j, n);
      assert ys[t] == if t + 1 < n then xs[t + 1] else xs[0];
    }
  }

  /** Element `d` of `xs`, counted round and round. */
  function Around(xs: seq<nat>, d: nat): (x: nat)
    requires xs != []
    ensures x == Turned(xs, d)[0]
  {
    TurnedHead(xs, d, 0);
    xs[d % |xs|]
  }
}
