/** The wait queue of blocked processes: a linked queue that is searched for the process to wake. */
module Waiting {
  import opened Common
  import opened Sleeping

  class WaitQueue {
    const next: array<int>
    var head: int
    var tail: int
    ghost var order: seq<nat>

    ghost predicate Valid()
      reads this, next
    {
      Chained(next[..], head, tail, order)
    }

    constructor (n: nat)
      ensures Valid() && order == [] && next.Length == n && fresh(next)
    {
      next := new int[n](_ => NIL);
      head, tail, order := NIL, NIL, [];
    }

    /** wait_queue_enqueue */
    method Enqueue(p: nat)
      requires Valid() && p < next.Length && p !in order
      modifies this, next
      ensures Valid() && order == old(order) + [p]
    {
      hide Chained;
      ChainAppend(next[..], head, tail, order, p);
      next[p] := NIL;
      if tail == NIL {
        head := p;
      } else {
        next[tail] := p;
      }
      tail := p;
      order := order + [p];
      assert next[..] == Appended(old(next[..]), old(tail), p);
    }

    /** The search of scheduler_wakeup_process, and the removal of what it finds. */
    method TakeOut(p: nat) returns (found: bool)
      requires Valid()
      modifies this, next
      ensures Valid() && (found <==> p in old(order)) && order == Without(old(order), p)
    {
      hide Chained, Without;
      var node, prev := head, NIL;
      ghost var kept: seq<nat>, rest := [], order;
      Start();
      assert kept + rest == rest;
      while node != NIL && node != p
        invariant Valid() && order == old(order) == kept + rest
        invariant next[..] == old(next[..]) && head == old(head) && tail == old(tail)
        invariant node == First(rest) && prev == Last(kept) && p !in kept
        decreases |rest|
      {
        ChainAt(next[..], head, tail, kept, rest);
        assert kept + rest == (kept + [rest[0]]) + rest[1..];
        kept, rest := kept + [rest[0]], rest[1..];
        prev := node;
        node := next[node];
      }
      found := node != NIL;
      if found {
        assert rest[0] == p;
        Cut(p, kept, rest);
        ChainCut(next[..], head, tail, kept, rest);
        var after := next[node];
        if prev != NIL {
          next[prev] := after;
        } else {
          head := after;
        }
        if after == NIL {
          tail := prev;
        }
        order := kept + rest[1..];
        assert next[..] == Skip(old(next[..]), kept, rest);
      } else {
        assert kept + rest == kept;
        WithoutAbsent(order, p);
      }
    }

    lemma Start()
      requires Valid()
      ensures head == First(order)
    {
    }

    lemma Cut(p: nat, kept: seq<nat>, rest: seq<nat>)
      requires Valid() && order == kept + rest && rest != [] && rest[0] == p
      ensures p in order && Without(order, p) == kept + rest[1..]
    {
      var k := |kept|;
      assert order[k] == p;
      WithoutAt(order, k);
      assert order[..k] == kept && order[k + 1..] == rest[1..];
    }
  }
}
