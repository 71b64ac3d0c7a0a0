/**
 * Sleeping processes in the kernel scheduler: the sleep queue and the pass of
 * check_sleeping_processes that rewrites it in place.  A process is its table
 * slot; `d` gives deadlines.
 */
module Sleeping {
  import opened Common

  const NIL: int := -1

  ghost predicate Known(xs: seq<nat>, d: seq<nat>) {
    forall k :: 0 <= k < |xs| ==> xs[k] < |d|
  }

  /** The processes of `xs` that still sleep at tick `now`, in order. */
  function Asleep(xs: seq<nat>, d: seq<nat>, now: nat): (r: seq<nat>)
    requires Known(xs, d)
    ensures forall p :: p in r <==> p in xs && now < d[p]
  {
    if xs == [] then []
    else if now >= d[xs[0]] then Asleep(xs[1..], d, now)
    else [xs[0]] + Asleep(xs[1..], d, now)
  }

  /** The processes of `xs` to wake at tick `now`, in order. */
  function Woken(xs: seq<nat>, d: seq<nat>, now: nat): (r: seq<nat>)
    requires Known(xs, d)
    ensures forall p :: p in r <==> p in xs && now >= d[p]
  {
    if xs == [] then []
    else if now >= d[xs[0]] then [xs[0]] + Woken(xs[1..], d, now)
    else Woken(xs[1..], d, now)
  }

  lemma {:induction false} SplitAtEnd(xs: seq<nat>, p: nat, d: seq<nat>, now: nat)
    requires Known(xs + [p], d)
    ensures Known(xs, d) && p < |d|
    ensures Asleep(xs + [p], d, now) == Asleep(xs, d, now) + (if now >= d[p] then [] else [p])
    ensures Woken(xs + [p], d, now) == Woken(xs, d, now) + (if now >= d[p] then [p] else [])
  {
    assert (xs + [p])[|xs|] == p;
    forall k | 0 <= k < |xs| ensures xs[k] < |d| { assert (xs + [p])[k] == xs[k]; }
    if xs == [] {
      assert xs + [p] == [p];
    } else {
      assert (xs + [p])[1..] == xs[1..] + [p];
      SplitAtEnd(xs[1..], p, d, now);
    }
  }

  // ----- the queue in place -----------------------------------------------------------

  function First(xs: seq<nat>): (r: int) {
    if xs == [] then NIL else xs[0]
  }

  function Last(xs: seq<nat>): (r: int) {
    if xs == [] then NIL else xs[|xs| - 1]
  }

  function After(xs: seq<nat>, k: nat): (r: int)
    requires k < |xs|
  {
    if k + 1 < |xs| then xs[k + 1] else NIL
  }

  /** Head, tail and links hold exactly the processes `xs`, in order. */
  ghost predicate Chained(next: seq<int>, head: int, tail: int, xs: seq<nat>) {
    && head == First(xs) && tail == Last(xs) && Distinct(xs)
    && forall k :: 0 <= k < |xs| ==> xs[k] < |next| && next[xs[k]] == After(xs, k)
  }

  /** `kept + rest` without the first of `rest`, position by position. */
  lemma CutIndex(kept: seq<nat>, rest: seq<nat>, m: nat)
    requires rest != [] && m < |kept| + |rest| - 1
    ensures (kept + rest[1..])[m] == (kept + rest)[if m < |kept| then m else m + 1]
    ensures After(kept + rest[1..], m) ==
              if m + 1 == |kept| then First(rest[1..]) else After(kept + rest, if m < |kept| then m else m + 1)
  {
    var xs, ys, k := kept + rest, kept + rest[1..], |kept|;
    assert ys[m] == xs[if m < k then m else m + 1];
    assert m + 1 < |ys| ==> ys[m + 1] == xs[if m + 1 < k then m + 1 else m + 2];
  }

  lemma CutDistinct(kept: seq<nat>, rest: seq<nat>)
    requires rest != [] && Distinct(kept + rest)
    ensures Distinct(kept + rest[1..])
  {
    var xs, ys := kept + rest, kept + rest[1..];
    forall i, j | 0 <= i < j < |ys| ensures ys[i] != ys[j] {
      CutIndex(kept, rest, i);
      CutIndex(kept, rest, j);
    }
  }

  /** The links after the predecessor of `rest[0]` skips it. */
  function Skip(next: seq<int>, kept: seq<nat>, rest: seq<nat>): (r: seq<int>)
    requires rest != [] && (kept != [] ==> kept[|kept| - 1] < |next|)
    ensures |r| == |next|
  {
    if kept == [] then next else next[kept[|kept| - 1] := First(rest[1..])]
  }

  /** What the links say around `rest[0]`. */
  lemma ChainAt(next: seq<int>, head: int, tail: int, kept: seq<nat>, rest: seq<nat>)
    requires Chained(next, head, tail, kept + rest) && rest != []
    ensures rest[0] < |next| && next[rest[0]] == First(rest[1..]) && (kept != [] ==> kept[|kept| - 1] < |next|)
    ensures head == (if kept == [] then rest[0] else kept[0])
    ensures tail == rest[|rest| - 1]
  {
    var xs, k := kept + rest, |kept|;
    assert xs[k] == rest[0] && next[xs[k]] == After(xs, k);
    assert k > 0 ==> xs[k - 1] == kept[k - 1];
  }

  lemma ChainIndex(next: seq<int>, head: int, tail: int, xs: seq<nat>, o: nat, k: nat)
    requires Chained(next, head, tail, xs) && o < |xs| && k < |xs|
    ensures xs[o] < |next| && next[xs[o]] == After(xs, o) && (o != k ==> xs[o] != xs[k])
  {
  }

  lemma SkipLink(next: seq<int>, head: int, tail: int, kept: seq<nat>, rest: seq<nat>, m: nat)
    requires Chained(next, head, tail, kept + rest) && rest != [] && m < |kept| + |rest| - 1
    requires kept != [] ==> kept[|kept| - 1] < |next|
    ensures var ys := kept + rest[1..]; ys[m] < |next| && Skip(next, kept, rest)[ys[m]] == After(ys, m)
  {
    hide Chained, After;
    var k := |kept|;
    CutIndex(kept, rest, m);
    ChainIndex(next, head, tail, kept + rest, if m < k then m else m + 1, if k > 0 then k - 1 else 0);
    assert k > 0 ==> (kept + rest)[k - 1] == kept[k - 1];
  }

  /** Unlinking the first of `rest` from `kept + rest`. */
  lemma ChainCut(next: seq<int>, head: int, tail: int, kept: seq<nat>, rest: seq<nat>)
    requires Chained(next, head, tail, kept + rest) && rest != []
    ensures rest[0] < |next| && next[rest[0]] == First(rest[1..]) && (kept != [] ==> kept[|kept| - 1] < |next|)
    ensures Chained(Skip(next, kept, rest), if kept == [] then First(rest[1..]) else head,
                    if rest[1..] == [] then Last(kept) else tail, kept + rest[1..])
  {
    hide Skip, After, Distinct;
    ChainAt(next, head, tail, kept, rest);
    CutDistinct(kept, rest);
    forall m | 0 <= m < |kept + rest[1..]|
      ensures var ys := kept + rest[1..]; ys[m] < |next| && Skip(next, kept, rest)[ys[m]] == After(ys, m)
    {
      SkipLink(next, head, tail, kept, rest, m);
    }
  }

  /** The links after `p` is put behind the tail. */
  function Appended(next: seq<int>, tail: int, p: nat): (r: seq<int>)
    requires p < |next| && NIL <= tail < |next|
    ensures |r| == |next|
  {
    if tail == NIL then next[p := NIL] else next[p := NIL][tail := p]
  }

  lemma ChainAppend(next: seq<int>, head: int, tail: int, xs: seq<nat>, p: nat)
    requires Chained(next, head, tail, xs) && p < |next| && p !in xs
    ensures NIL <= tail < |next| && (tail == NIL <==> xs == []) && tail != p
    ensures Chained(Appended(next, tail, p), if tail == NIL then p else head, p, xs + [p])
  {
    var ys := xs + [p];
    assert xs != [] ==> tail == xs[|xs| - 1] && tail in xs;
    forall k | 0 <= k < |ys| ensures ys[k] < |next| && Appended(next, tail, p)[ys[k]] == After(ys, k) {
      if k < |xs| {
        assert ys[k] == xs[k] && xs[k] in xs && next[xs[k]] == After(xs, k);
      }
    }
  }

  /** One step of the pass, on the sequences alone. */
  lemma PassStep(kept: seq<nat>, seen: seq<nat>, rest: seq<nat>, d: seq<nat>, now: nat)
    requires rest != [] && Known(seen + rest, d)
    ensures seen + rest == (seen + [rest[0]]) + rest[1..] && Known(seen, d) && Known(seen + [rest[0]], d) &&
        rest[0] < |d|
    ensures kept + rest == (kept + [rest[0]]) + rest[1..]
    ensures Asleep(seen + [rest[0]], d, now) == Asleep(seen, d, now) + (if now >= d[rest[0]] then [] else [rest[0]])
    ensures Woken(seen + [rest[0]], d, now) == Woken(seen, d, now) + (if now >= d[rest[0]] then [rest[0]] else [])
  {
    assert forall k :: 0 <= k < |seen + [rest[0]]| ==> (seen + [rest[0]])[k] == (seen + rest)[k];
    SplitAtEnd(seen, rest[0], d, now);
  }

  class SleepQueue {
    const next: array<int>
    const deadline: array<nat>
    var head: int
    var tail: int
    var ticks: nat
    /** the run queue, in order; its own links are not part of this model */
    var ready: seq<nat>
    ghost var order: seq<nat>

    ghost predicate Valid()
      reads this, next, deadline
    {
      && next.Length == deadline.Length
      && Chained(next[..], head, tail, order)
      && Known(order, deadline[..])
    }

    constructor (n: nat)
      ensures Valid() && order == [] && ready == [] && ticks == 0 && next.Length == n
      ensures fresh(next) && fresh(deadline) && forall i :: 0 <= i < n ==> deadline[i] == 0
    {
      next, deadline := new int[n](_ => NIL), new nat[n](_ => 0);
      head, tail, ticks, ready, order := NIL, NIL, 0, [], [];
    }

    /** The queue part of scheduler_sleep_process: `p` goes to the end with its deadline. */
    method Sleep(p: nat, n: nat)
      requires Valid() && p < next.Length && p !in order
      modifies this`head, this`tail, this`order, next, deadline
      ensures Valid() && order == old(order) + [p]
      ensures deadline[..] == old(deadline[..])[p := ticks + n]
    {
      hide Chained;
      ChainAppend(next[..], head, tail, order, p);
      deadline[p] := ticks + n;
      next[p] := NIL;
      if tail == NIL {
        head := p;
      } else {
        next[tail] := p;
      }
      tail := p;
      order := order + [p];
      assert next[..] == Appended(old(next[..]), old(tail), p);
    }

    /** The sleep queue without the first of `rest`; `node` is that process, `prev` the last of `kept`. */
    method Unlink(node: nat, prev: int, ghost kept: seq<nat>, ghost rest: seq<nat>)
      requires Valid() && order == kept + rest && rest != [] && node == rest[0] && prev == Last(kept)
      modifies this`head, this`tail, this`order, next
      ensures Valid() && order == kept + rest[1..]
    {
      hide Chained;
      ChainCut(next[..], head, tail, kept, rest);
      assert forall k :: 0 <= k < |kept + rest[1..]| ==>
          (kept + rest[1..])[k] == order[if k < |kept| then k else k + 1];
      var after := next[node];
      if prev != NIL {
        next[prev] := after;
      } else {
        head := after;
      }
      if after == NIL {
        tail := prev;
      }
      order := kept + rest[1..];
      assert next[..] == Skip(old(next[..]), kept, rest);
    }

    /** A walk along the queue finds the next process. */
    lemma Walk(kept: seq<nat>, rest: seq<nat>)
      requires Valid() && order == kept + rest && rest != []
      ensures rest[0] < next.Length && next[rest[0]] == First(rest[1..]) && Known(rest, deadline[..])
    {
      assert order[|kept|] == rest[0] && next[..][order[|kept|]] == After(order, |kept|);
      assert forall k :: 0 <= k < |rest| ==> rest[k] == order[|kept| + k];
    }

    /** check_sleeping_processes */
    method CheckSleeping()
      requires Valid()
      modifies this`head, this`tail, this`order, this`ready, next
      ensures Valid()
      ensures order == Asleep(old(order), deadline[..], ticks)
      ensures ready == old(ready) + Woken(old(order), deadline[..], ticks)
    {
      hide Chained, Asleep, Woken, Known;
      ghost var d, kept, seen, rest := deadline[..], [], [], order;
      var node, prev := head, NIL;
      StartOfWalk();
      NoneSeen(d);
      assert kept + rest == rest && seen + rest == rest;
      while node != NIL
        invariant Valid() && deadline[..] == d && seen + rest == old(order) && Known(seen + rest, d) && Known(seen, d)
        invariant order == kept + rest && node == First(rest) && prev == Last(kept)
        invariant kept == Asleep(seen, d, ticks)
        invariant ready == old(ready) + Woken(seen, d, ticks)
        decreases |rest|
      {
        PassStep(kept, seen, rest, d, ticks);
        Walk(kept, rest);
        seen := seen + [rest[0]];
        if ticks >= deadline[node] {
          var after := next[node];
          Unlink(node, prev, kept, rest);
          ready := ready + [node];
          node := after;
        } else {
          kept := kept + [rest[0]];
          prev := node;
          node := next[node];
        }
        rest := rest[1..];
      }
      assert seen + rest == seen && kept + rest == kept;
    }

    lemma NoneSeen(d: seq<nat>)
      ensures Known([], d) && Asleep([], d, ticks) == [] && Woken([], d, ticks) == []
    {
    }

    lemma StartOfWalk()
      requires Valid()
      ensures head == First(order)
    {
    }
  }
}
