/**
 * The scheduler as the kernel runs it: a process table whose entries are linked
 * in place into doubly linked ready queues.  A process pointer is a table slot,
 * or NIL.  Every method is proved to do to the abstract state what the step
 * machine of module Scheduling says.
 */
module ProcessTable {
  import opened Common
  import opened Scheduling
  import opened SchedulerInvariant

  const NIL: int := -1

  datatype Pcb = Pcb(info: Proc, next: int, prev: int)

  datatype ReadyQueue = ReadyQueue(head: int, tail: int, count: nat)

  function Succ(xs: seq<nat>, k: nat, last: int): (r: int)
    requires k < |xs|
  {
    if k + 1 < |xs| then xs[k + 1] else last
  }

  function Pred(xs: seq<nat>, k: nat): (r: int)
    requires k < |xs|
  {
    if k > 0 then xs[k - 1] else NIL
  }

  /**
   * The queue header `q` and the links in table `t` hold exactly `xs`, in order.
   * The `next` link of the last element is `last` (NIL in a well-formed queue).
   */
  ghost predicate Linked(t: seq<Pcb>, q: ReadyQueue, xs: seq<nat>, last: int) {
    && q.count == |xs|
    && q.head == (if xs == [] then NIL else xs[0])
    && q.tail == (if xs == [] then NIL else xs[|xs| - 1])
    && Distinct(xs)
    && (forall k :: 0 <= k < |xs| ==> xs[k] < |t|)
    && (forall k :: 0 <= k < |xs| ==> t[xs[k]].next == Succ(xs, k, last) && t[xs[k]].prev == Pred(xs, k))
  }

  /** Writes through a pointer; writing through NIL does nothing. */
  function SetNext(t: seq<Pcb>, x: int, v: int): (r: seq<Pcb>)
    requires NIL <= x < |t|
    ensures |r| == |t|
  {
    if x == NIL then t else t[x := t[x].(next := v)]
  }

  function SetPrev(t: seq<Pcb>, x: int, v: int): (r: seq<Pcb>)
    requires NIL <= x < |t|
    ensures |r| == |t|
  {
    if x == NIL then t else t[x := t[x].(prev := v)]
  }

  /** Writes to other entries do not disturb a queue. */
  lemma LinkedFrame(t: seq<Pcb>, t': seq<Pcb>, q: ReadyQueue, xs: seq<nat>, last: int)
    requires Linked(t, q, xs, last) && |t'| == |t|
    requires forall x :: x in xs && x < |t| ==> t'[x].next == t[x].next && t'[x].prev == t[x].prev
    ensures Linked(t', q, xs, last)
  {
    forall k | 0 <= k < |xs| ensures t'[xs[k]].next == t[xs[k]].next && t'[xs[k]].prev == t[xs[k]].prev {
      assert xs[k] in xs;
    }
  }

  lemma TailInQueue(t: seq<Pcb>, q: ReadyQueue, xs: seq<nat>, last: int)
    requires Linked(t, q, xs, last)
    ensures NIL <= q.head < |t| && NIL <= q.tail < |t|
    ensures q.head == NIL <==> xs == []
    ensures xs != [] ==> q.tail in xs
  {
  }

  /** Linking `i`, whose `next` is `last`, behind the tail. */
  lemma LinkedAppend(t: seq<Pcb>, q: ReadyQueue, xs: seq<nat>, i: nat, before: int)
    requires Linked(t, q, xs, before) && i < |t| && i !in xs && NIL <= q.tail < |t|
    ensures Linked(SetPrev(SetNext(t, q.tail, i), i, q.tail),
                   ReadyQueue(if q.head == NIL then i else q.head, i, q.count + 1), xs + [i], t[i].next)
  {
    var ys := xs + [i];
    var t' := SetPrev(SetNext(t, q.tail, i), i, q.tail);
    forall k | 0 <= k < |ys|
      ensures t'[ys[k]].next == Succ(ys, k, t[i].next) && t'[ys[k]].prev == Pred(ys, k)
    {
      if k < |xs| { assert ys[k] == xs[k] && xs[k] in xs; }
    }
  }

  /** Dropping the head; the second entry loses its `prev` link. */
  lemma LinkedTake(t: seq<Pcb>, q: ReadyQueue, xs: seq<nat>)
    requires Linked(t, q, xs, NIL) && xs != []
    ensures NIL <= t[xs[0]].next < |t| && (t[xs[0]].next == NIL <==> |xs| == 1) && (q.head == q.tail <==> |xs| == 1)
    ensures Linked(SetPrev(t, t[xs[0]].next, NIL),
                   if q.head == q.tail then ReadyQueue(NIL, NIL, q.count - 1)
                   else ReadyQueue(t[xs[0]].next, q.tail, q.count - 1),
                   xs[1..], NIL)
  {
    var ys := xs[1..];
    assert t[xs[0]].next == Succ(xs, 0, NIL);
    var t' := SetPrev(t, t[xs[0]].next, NIL);
    forall k | 0 <= k < |ys|
      ensures t'[ys[k]].next == Succ(ys, k, NIL) && t'[ys[k]].prev == Pred(ys, k)
    {
      assert ys[k] == xs[k + 1];
    }
  }

  /** The header after unlinking an entry with these links. */
  function CutHeader(q: ReadyQueue, next: int, prev: int): (r: ReadyQueue) {
    ReadyQueue(if prev == NIL then next else q.head, if next == NIL then prev else q.tail,
               if q.count > 0 then q.count - 1 else q.count)
  }

  /** The table after unlinking entry `i`. */
  function CutTable(t: seq<Pcb>, i: nat): (r: seq<Pcb>)
    requires i < |t| && NIL <= t[i].next < |t| && NIL <= t[i].prev < |t|
    ensures |r| == |t|
  {
    var u := SetPrev(SetNext(t, t[i].prev, t[i].next), t[i].next, t[i].prev);
    u[i := u[i].(next := NIL, prev := NIL)]
  }

  /** Unlinking position `k` joins its neighbours: the links of another position `o`. */
  lemma CutLinks(t: seq<Pcb>, q: ReadyQueue, xs: seq<nat>, k: nat, o: nat)
    requires Linked(t, q, xs, NIL) && k < |xs| && o < |xs| && o != k
    ensures var p := t[xs[k]]; NIL <= p.next < |t| && NIL <= p.prev < |t| && p.next != xs[k] && p.prev != xs[k]
    ensures CutTable(t, xs[k])[xs[o]].next == if o + 1 == k then Succ(xs, k, NIL) else Succ(xs, o, NIL)
    ensures CutTable(t, xs[k])[xs[o]].prev == if o == k + 1 then Pred(xs, k) else Pred(xs, o)
  {
    assert t[xs[k]].next == Succ(xs, k, NIL) && t[xs[k]].prev == Pred(xs, k);
    assert t[xs[o]].next == Succ(xs, o, NIL) && t[xs[o]].prev == Pred(xs, o);
  }

  /** Neighbours in a sequence with position `k` cut out. */
  lemma CutNeighbours(xs: seq<nat>, k: nat, m: nat)
    requires Distinct(xs) && k < |xs| && m < |Without(xs, xs[k])|
    ensures var ys, o := Without(xs, xs[k]), if m < k then m else m + 1;
            && o < |xs| && ys[m] == xs[o]
            && Succ(ys, m, NIL) == (if o + 1 == k then Succ(xs, k, NIL) else Succ(xs, o, NIL))
            && Pred(ys, m) == (if o == k + 1 then Pred(xs, k) else Pred(xs, o))
  {
    WithoutAt(xs, k);
    var ys := xs[..k] + xs[k + 1..];
    assert ys[m] == xs[if m < k then m else m + 1];
    assert m + 1 < |ys| ==> ys[m + 1] == xs[if m + 1 < k then m + 1 else m + 2];
    assert m > 0 ==> ys[m - 1] == xs[if m - 1 < k then m - 1 else m];
  }

  /** Length and ends of a sequence with position `k` cut out. */
  lemma CutEnds(xs: seq<nat>, k: nat)
    requires Distinct(xs) && k < |xs|
    ensures var ys := Without(xs, xs[k]);
            && Distinct(ys) && |ys| == |xs| - 1
            && (ys != [] ==> ys[0] == (if k > 0 then xs[0] else xs[1]))
            && (ys != [] ==> ys[|ys| - 1] == (if k + 1 < |xs| then xs[|xs| - 1] else xs[k - 1]))
  {
    WithoutAt(xs, k);
    WithoutDistinct(xs, xs[k]);
  }

  lemma CutStep(t: seq<Pcb>, q: ReadyQueue, xs: seq<nat>, k: nat, m: nat)
    requires Linked(t, q, xs, NIL) && k < |xs| && m < |Without(xs, xs[k])|
    requires NIL <= t[xs[k]].next < |t| && NIL <= t[xs[k]].prev < |t|
    ensures var ys, t' := Without(xs, xs[k]), CutTable(t, xs[k]);
            ys[m] < |t| && t'[ys[m]].next == Succ(ys, m, NIL) && t'[ys[m]].prev == Pred(ys, m)
  {
    CutNeighbours(xs, k, m);
    CutLinks(t, q, xs, k, if m < k then m else m + 1);
  }

  /** The header after unlinking position `k`. */
  lemma CutHeaderFits(t: seq<Pcb>, q: ReadyQueue, xs: seq<nat>, k: nat)
    requires Linked(t, q, xs, NIL) && k < |xs|
    ensures var p, ys := t[xs[k]], Without(xs, xs[k]);
            && NIL <= p.next < |t| && NIL <= p.prev < |t| && p.next != xs[k] && p.prev != xs[k]
            && Distinct(ys)
            && CutHeader(q, p.next, p.prev) ==
                 ReadyQueue(if ys == [] then NIL else ys[0], if ys == [] then NIL else ys[|ys| - 1], |ys|)
  {
    assert t[xs[k]].next == Succ(xs, k, NIL) && t[xs[k]].prev == Pred(xs, k);
    CutEnds(xs, k);
  }

  lemma LinkedCut(t: seq<Pcb>, q: ReadyQueue, xs: seq<nat>, k: nat)
    requires Linked(t, q, xs, NIL) && k < |xs|
    ensures NIL <= t[xs[k]].next < |t| && NIL <= t[xs[k]].prev < |t| && t[xs[k]].next != xs[k] && t[xs[k]].prev != xs[k]
    ensures Linked(CutTable(t, xs[k]), CutHeader(q, t[xs[k]].next, t[xs[k]].prev), Without(xs, xs[k]), NIL)
  {
    hide CutTable, Without, CutHeader, Succ, Pred, Distinct;
    CutHeaderFits(t, q, xs, k);
    forall m | 0 <= m < |Without(xs, xs[k])|
      ensures var ys, t' := Without(xs, xs[k]), CutTable(t, xs[k]);
              ys[m] < |t| && t'[ys[m]].next == Succ(ys, m, NIL) && t'[ys[m]].prev == Pred(ys, m)
    {
      CutStep(t, q, xs, k, m);
    }
  }

  /** No process is in two queues. */
  ghost predicate Disjoint(order: seq<seq<nat>>) {
    forall a, b :: 0 <= a < |order| && 0 <= b < |order| && a != b ==> NoCommon(order[a], order[b])
  }

  ghost predicate NoCommon(xs: seq<nat>, ys: seq<nat>) {
    forall x :: x in xs ==> x !in ys
  }

  ghost predicate InNone(order: seq<seq<nat>>, i: nat) {
    forall q :: 0 <= q < |order| ==> i !in order[q]
  }

  /** All queues are well linked; the last link of level 0 is `last`, which is NIL except during a boost. */
  ghost predicate LooselyLinked(t: seq<Pcb>, hs: seq<ReadyQueue>, order: seq<seq<nat>>, last: int) {
    && |hs| == QUEUES && |order| == QUEUES
    && Linked(t, hs[0], order[0], last)
    && (forall q :: 1 <= q < QUEUES ==> Linked(t, hs[q], order[q], NIL))
    && Disjoint(order)
  }

  ghost predicate AllLinked(t: seq<Pcb>, hs: seq<ReadyQueue>, order: seq<seq<nat>>) {
    && |hs| == QUEUES && |order| == QUEUES
    && (forall q :: 0 <= q < QUEUES ==> Linked(t, hs[q], order[q], NIL))
    && Disjoint(order)
  }

  lemma LooseIsTight(t: seq<Pcb>, hs: seq<ReadyQueue>, order: seq<seq<nat>>)
    requires LooselyLinked(t, hs, order, NIL)
    ensures AllLinked(t, hs, order)
  {
  }

  /** A change confined to queue `q` and to entries in no other queue keeps the rest. */
  lemma QueueChanged(t: seq<Pcb>, t': seq<Pcb>, hs: seq<ReadyQueue>, order: seq<seq<nat>>, q: nat, h: ReadyQueue,
      xs: seq<nat>)
    requires AllLinked(t, hs, order) && q < QUEUES && |t'| == |t|
    requires Linked(t', h, xs, NIL)
    requires forall g :: 0 <= g < QUEUES && g != q ==> NoCommon(xs, order[g])
    requires forall g, x :: 0 <= g < QUEUES && g != q && x in order[g] && x < |t| ==>
               t'[x].next == t[x].next && t'[x].prev == t[x].prev
    ensures AllLinked(t', hs[q := h], order[q := xs])
  {
    forall g | 0 <= g < QUEUES && g != q ensures Linked(t', hs[g], order[g], NIL) {
      LinkedFrame(t, t', hs[g], order[g], NIL);
    }
    var order' := order[q := xs];
    forall a, b | 0 <= a < QUEUES && 0 <= b < QUEUES && a != b ensures NoCommon(order'[a], order'[b]) {
      assert NoCommon(order[a], order[b]);
    }
  }

  // What the queue operations write, as functions of the table and the header.

  function AppendTable(t: seq<Pcb>, q: ReadyQueue, i: nat): (r: seq<Pcb>)
    requires i < |t| && NIL <= q.tail < |t|
    ensures |r| == |t|
  {
    SetPrev(SetNext(t[i := t[i].(next := NIL, prev := NIL)], q.tail, i), i, q.tail)
  }

  function AppendHeader(q: ReadyQueue, i: nat): (r: ReadyQueue) {
    ReadyQueue(if q.head == NIL then i else q.head, i, q.count + 1)
  }

  function TakeHeader(q: ReadyQueue, next: int): (r: ReadyQueue)
    requires q.count > 0
  {
    if q.head == q.tail then ReadyQueue(NIL, NIL, q.count - 1) else ReadyQueue(next, q.tail, q.count - 1)
  }

  lemma AppendElsewhere(t: seq<Pcb>, q: ReadyQueue, i: nat, x: nat)
    requires i < |t| && NIL <= q.tail < |t| && x < |t| && x != i && x != q.tail
    ensures AppendTable(t, q, i)[x] == t[x]
  {
  }

  lemma AppendLinked(t: seq<Pcb>, q: ReadyQueue, xs: seq<nat>, i: nat)
    requires Linked(t, q, xs, NIL) && i < |t| && i !in xs
    ensures NIL <= q.tail < |t| && (q.head == NIL <==> q.tail == NIL) && q.tail != i && (q.tail != NIL ==> q.tail in xs)
    ensures Linked(AppendTable(t, q, i), AppendHeader(q, i), xs + [i], NIL)
  {
    TailInQueue(t, q, xs, NIL);
    var u := t[i := t[i].(next := NIL, prev := NIL)];
    LinkedFrame(t, u, q, xs, NIL);
    LinkedAppend(u, q, xs, i, NIL);
  }

  lemma AppendKeeps(t: seq<Pcb>, hs: seq<ReadyQueue>, order: seq<seq<nat>>, q: nat, i: nat)
    requires AllLinked(t, hs, order) && q < QUEUES && i < |t| && InNone(order, i)
    ensures NIL <= hs[q].tail < |t| && (hs[q].head == NIL <==> hs[q].tail == NIL) && hs[q].tail != i
    ensures AllLinked(AppendTable(t, hs[q], i), hs[q := AppendHeader(hs[q], i)], order[q := order[q] + [i]])
  {
    hide Linked, AppendTable;
    var xs := order[q];
    AppendLinked(t, hs[q], xs, i);
    forall g | 0 <= g < QUEUES && g != q ensures NoCommon(xs + [i], order[g]) {
      assert NoCommon(xs, order[g]);
    }
    forall g, x | 0 <= g < QUEUES && g != q && x in order[g] && x < |t| ensures AppendTable(t, hs[q], i)[x] == t[x] {
      assert NoCommon(xs, order[g]);
      AppendElsewhere(t, hs[q], i, x);
    }
    QueueChanged(t, AppendTable(t, hs[q], i), hs, order, q, AppendHeader(hs[q], i), xs + [i]);
  }

  lemma TakeKeeps(t: seq<Pcb>, hs: seq<ReadyQueue>, order: seq<seq<nat>>, q: nat)
    requires AllLinked(t, hs, order) && q < QUEUES && hs[q].count > 0
    ensures order[q] != [] && hs[q].head == order[q][0] < |t| && NIL <= t[hs[q].head].next < |t|
    ensures t[hs[q].head].next == NIL <==> hs[q].head == hs[q].tail
    ensures AllLinked(SetPrev(t, t[hs[q].head].next, NIL), hs[q := TakeHeader(hs[q], t[hs[q].head].next)],
        order[q := order[q][1..]])
  {
    var xs := order[q];
    assert Linked(t, hs[q], xs, NIL);
    LinkedTake(t, hs[q], xs);
    forall g | 0 <= g < QUEUES && g != q ensures NoCommon(xs[1..], order[g]) {
      assert NoCommon(xs, order[g]);
    }
    var t' := SetPrev(t, t[xs[0]].next, NIL);
    assert t[xs[0]].next != NIL ==> t[xs[0]].next == xs[1] && xs[1] in xs;
    QueueChanged(t, t', hs, order, q, TakeHeader(hs[q], t[xs[0]].next), xs[1..]);
  }

  lemma CutKeeps(t: seq<Pcb>, hs: seq<ReadyQueue>, order: seq<seq<nat>>, q: nat, i: nat)
    requires AllLinked(t, hs, order) && q < QUEUES && i in order[q] && i < |t|
    ensures hs[q].count > 0 && NIL <= t[i].next < |t| && NIL <= t[i].prev < |t| && t[i].next != i && t[i].prev != i
    ensures AllLinked(CutTable(t, i), hs[q := CutHeader(hs[q], t[i].next, t[i].prev)], order[q := Without(order[q], i)])
  {
    var xs := order[q];
    var k :| 0 <= k < |xs| && xs[k] == i;
    assert Linked(t, hs[q], xs, NIL);
    LinkedCut(t, hs[q], xs, k);
    forall g, x | 0 <= g < QUEUES && g != q && x in order[g] && x < |t|
      ensures CutTable(t, i)[x].next == t[x].next && CutTable(t, i)[x].prev == t[x].prev
    {
      assert NoCommon(xs, order[g]);
      CutElsewhere(t, hs[q], xs, k, x);
    }
    forall g | 0 <= g < QUEUES && g != q ensures NoCommon(Without(xs, i), order[g]) {
      assert NoCommon(xs, order[g]);
    }
    QueueChanged(t, CutTable(t, i), hs, order, q, CutHeader(hs[q], t[i].next, t[i].prev), Without(xs, i));
  }

  lemma CutElsewhere(t: seq<Pcb>, q: ReadyQueue, xs: seq<nat>, k: nat, x: nat)
    requires Linked(t, q, xs, NIL) && k < |xs| && x !in xs && x < |t|
    ensures NIL <= t[xs[k]].next < |t| && NIL <= t[xs[k]].prev < |t|
    ensures CutTable(t, xs[k])[x] == t[x]
  {
    assert t[xs[k]].next == Succ(xs, k, NIL) && t[xs[k]].prev == Pred(xs, k);
  }

  /**
   * The table after one step of a boost: `n` leaves its level and goes behind
   * level 0, keeping its `next` link, which still points into its old level.
   */
  function MoveTable(t: seq<Pcb>, front: ReadyQueue, n: nat): (r: seq<Pcb>)
    requires n < |t| && NIL <= t[n].next < |t| && NIL <= front.tail < |t|
    ensures |r| == |t|
  {
    var u := SetPrev(SetNext(SetPrev(t, t[n].next, NIL), front.tail, n), n, front.tail);
    u[n := u[n].(info := Promote(u[n].info))]
  }

  /** What the links around a boost step look like before it. */
  lemma MoveReady(t: seq<Pcb>, h0: ReadyQueue, front: seq<nat>, hg: ReadyQueue, xs: seq<nat>, last: int)
    requires Linked(t, h0, front, last) && Linked(t, hg, xs, NIL) && xs != [] && NoCommon(xs, front)
    ensures xs[0] < |t| && NIL <= t[xs[0]].next < |t| && NIL <= h0.tail < |t| && h0.tail != xs[0]
    ensures xs[0] !in xs[1..]
    ensures t[xs[0]].next == Succ(xs, 0, NIL) && t[xs[0]].prev == NIL && t[xs[0]].next != xs[0]
    ensures (t[xs[0]].next == NIL <==> hg.head == hg.tail) && (h0.head == NIL <==> h0.tail == NIL)
    ensures (t[xs[0]].next != NIL ==> t[xs[0]].next in xs) && (h0.tail != NIL ==> h0.tail in front)
  {
    TailInQueue(t, h0, front, last);
    assert t[xs[0]].next == Succ(xs, 0, NIL) && t[xs[0]].prev == Pred(xs, 0);
    assert xs[0] in xs && (|xs| > 1 ==> xs[1] in xs);
  }

  /** The target of a boost step: level 0 now ends in a link into the source. */
  lemma MoveTarget(t: seq<Pcb>, h0: ReadyQueue, front: seq<nat>, hg: ReadyQueue, xs: seq<nat>, last: int)
    requires Linked(t, h0, front, last) && Linked(t, hg, xs, NIL) && xs != [] && NoCommon(xs, front)
    requires NIL <= t[xs[0]].next < |t| && NIL <= h0.tail < |t|
    ensures Linked(MoveTable(t, h0, xs[0]), AppendHeader(h0, xs[0]), front + [xs[0]], t[xs[0]].next)
  {
    hide Linked;
    MoveReady(t, h0, front, hg, xs, last);
    var n := xs[0];
    assert n in xs;
    var t1 := SetPrev(t, t[n].next, NIL);
    LinkedFrame(t, t1, h0, front, last);
    LinkedAppend(t1, h0, front, n, last);
    LinkedFrame(SetPrev(SetNext(t1, h0.tail, n), n, h0.tail), MoveTable(t, h0, n), AppendHeader(h0, n), front + [n],
        t[n].next);
  }

  /** The source of a boost step has lost its head. */
  lemma MoveSource(t: seq<Pcb>, h0: ReadyQueue, front: seq<nat>, hg: ReadyQueue, xs: seq<nat>, last: int)
    requires Linked(t, h0, front, last) && Linked(t, hg, xs, NIL) && xs != [] && NoCommon(xs, front)
    requires NIL <= t[xs[0]].next < |t| && NIL <= h0.tail < |t|
    ensures Linked(MoveTable(t, h0, xs[0]), TakeHeader(hg, t[xs[0]].next), xs[1..], NIL)
  {
    hide Linked;
    MoveReady(t, h0, front, hg, xs, last);
    LinkedTake(t, hg, xs);
    var n := xs[0];
    var t1 := SetPrev(t, t[n].next, NIL);
    var t3 := MoveTable(t, h0, n);
    forall x | x in xs[1..] && x < |t| ensures t3[x].next == t1[x].next && t3[x].prev == t1[x].prev {
      assert x in xs && x != n;
    }
    LinkedFrame(t1, t3, TakeHeader(hg, t[n].next), xs[1..], NIL);
  }

  lemma MoveDisjoint(order: seq<seq<nat>>, g: nat)
    requires Disjoint(order) && 0 < g < |order| && order[g] != [] && Distinct(order[g])
    ensures Disjoint(order[g := order[g][1..]][0 := order[0] + [order[g][0]]])
  {
    var xs, n := order[g], order[g][0];
    var order' := order[g := xs[1..]][0 := order[0] + [n]];
    assert n in xs;
    forall a, b | 0 <= a < |order| && 0 <= b < |order| && a != b ensures NoCommon(order'[a], order'[b]) {
      assert NoCommon(order[a], order[b]);
      assert a != g ==> NoCommon(order[a], xs);
      assert b != g ==> NoCommon(xs, order[b]);
    }
  }

  lemma MoveElsewhere(t: seq<Pcb>, h0: ReadyQueue, front: seq<nat>, hg: ReadyQueue, xs: seq<nat>, last: int,
      hq: ReadyQueue, ys: seq<nat>)
    requires Linked(t, h0, front, last) && Linked(t, hg, xs, NIL) && xs != [] && NoCommon(xs, front)
    requires Linked(t, hq, ys, NIL) && NoCommon(ys, xs) && NoCommon(ys, front)
    requires NIL <= t[xs[0]].next < |t| && NIL <= h0.tail < |t|
    ensures Linked(MoveTable(t, h0, xs[0]), hq, ys, NIL)
  {
    hide Linked;
    MoveReady(t, h0, front, hg, xs, last);
    assert xs[0] in xs;
    forall x | x in ys && x < |t| ensures MoveTable(t, h0, xs[0])[x] == t[x] {
      assert x !in xs && x !in front;
      MovePoint(t, h0, xs[0], x);
    }
    LinkedFrame(t, MoveTable(t, h0, xs[0]), hq, ys, NIL);
  }

  lemma MovePoint(t: seq<Pcb>, h0: ReadyQueue, n: nat, x: nat)
    requires n < |t| && NIL <= t[n].next < |t| && NIL <= h0.tail < |t| && x < |t|
    requires x != n && x != t[n].next && x != h0.tail
    ensures MoveTable(t, h0, n)[x] == t[x]
  {
  }

  lemma MoveOthers(t: seq<Pcb>, hs: seq<ReadyQueue>, order: seq<seq<nat>>, g: nat, last: int)
    requires LooselyLinked(t, hs, order, last) && 0 < g < QUEUES && order[g] != []
    requires var n := order[g][0]; n < |t| && NIL <= t[n].next < |t| && NIL <= hs[0].tail < |t|
    ensures forall q :: 1 <= q < QUEUES && q != g ==> Linked(MoveTable(t, hs[0], order[g][0]), hs[q], order[q], NIL)
  {
    var xs := order[g];
    forall q | 1 <= q < QUEUES && q != g ensures Linked(MoveTable(t, hs[0], xs[0]), hs[q], order[q], NIL) {
      assert NoCommon(order[q], xs) && NoCommon(order[q], order[0]) && NoCommon(xs, order[0]);
      assert Linked(t, hs[g], xs, NIL);
      MoveElsewhere(t, hs[0], order[0], hs[g], xs, last, hs[q], order[q]);
    }
  }

  /** The state after a boost step, given its parts. */
  lemma MoveAssembled(t: seq<Pcb>, hs: seq<ReadyQueue>, order: seq<seq<nat>>, g: nat, h0: ReadyQueue,
      front: seq<nat>, hg: ReadyQueue, xs: seq<nat>, last: int)
    requires |hs| == QUEUES && |order| == QUEUES && 0 < g < QUEUES
    requires Linked(t, h0, front, last) && Linked(t, hg, xs, NIL)
    requires forall q :: 1 <= q < QUEUES && q != g ==> Linked(t, hs[q], order[q], NIL)
    requires Disjoint(order[g := xs][0 := front])
    ensures LooselyLinked(t, hs[g := hg][0 := h0], order[g := xs][0 := front], last)
  {
  }

  /** A boost step keeps everything linked, up to the last link of level 0. */
  lemma MoveKeeps(t: seq<Pcb>, hs: seq<ReadyQueue>, order: seq<seq<nat>>, g: nat, last: int)
    requires LooselyLinked(t, hs, order, last) && 0 < g < QUEUES && hs[g].count > 0
    ensures order[g] != [] && hs[g].head == order[g][0] < |t|
    ensures var n := hs[g].head;
            && NIL <= t[n].next < |t| && NIL <= hs[0].tail < |t| && hs[0].tail != n
            && t[n].next == Succ(order[g], 0, NIL) && t[n].prev == NIL && t[n].next != n
            && (t[n].next == NIL <==> hs[g].head == hs[g].tail) && (hs[0].head == NIL <==> hs[0].tail == NIL)
            && LooselyLinked(MoveTable(t, hs[0], n), hs[g := TakeHeader(hs[g], t[n].next)][0 := AppendHeader(hs[0], n)],
                             order[g := order[g][1..]][0 := order[0] + [n]], t[n].next)
  {
    var xs := order[g];
    assert Linked(t, hs[g], xs, NIL) && NoCommon(xs, order[0]);
    MoveReady(t, hs[0], order[0], hs[g], xs, last);
    var n := xs[0];
    MoveTarget(t, hs[0], order[0], hs[g], xs, last);
    MoveSource(t, hs[0], order[0], hs[g], xs, last);
    MoveDisjoint(order, g);
    MoveOthers(t, hs, order, g, last);
    MoveAssembled(MoveTable(t, hs[0], n), hs, order, g, AppendHeader(hs[0], n), order[0] + [n],
                  TakeHeader(hs[g], t[n].next), xs[1..], t[n].next);
  }

  function Infos(t: seq<Pcb>): (r: seq<Proc>)
    ensures |r| == |t| && forall i :: 0 <= i < |t| ==> r[i] == t[i].info
  {
    seq(|t|, i requires 0 <= i < |t| => t[i].info)
  }

  /** Levels 1 to `i - 1`, one after the other. */
  function Below(order: seq<seq<nat>>, i: nat): (r: seq<nat>)
    requires |order| == QUEUES && 1 <= i <= MAX_PRIORITY_LEVELS
  {
    if i == 1 then []
    else if i == 2 then order[1]
    else if i == 3 then order[1] + order[2]
    else order[1] + order[2] + order[3]
  }

  lemma BelowNext(order: seq<seq<nat>>, i: nat)
    requires |order| == QUEUES && 1 <= i < MAX_PRIORITY_LEVELS
    ensures Below(order, i) + order[i] == Below(order, i + 1)
    ensures order[0] + Below(order, i) + order[i] == order[0] + Below(order, i + 1)
  {
  }

  /** Table entries with the processes `moved` promoted. */
  ghost predicate Promoted(before: seq<Pcb>, after: seq<Pcb>, moved: seq<nat>) {
    && |after| == |before|
    && forall x :: 0 <= x < |before| ==> after[x].info == if x in moved then Promote(before[x].info) else before[x].info
  }

  lemma PromotedAll(s: Sched, before: seq<Pcb>, after: seq<Pcb>)
    requires Shape(s) && Infos(before) == s.procs && Promoted(before, after, Lower(s))
    ensures Infos(after) == Boost(s).procs
  {
    forall x | 0 <= x < MAX_PROCESSES ensures Infos(after)[x] == Boost(s).procs[x] {
      assert Infos(before)[x] == before[x].info;
    }
  }

  /** The processes `moved` are in no level below 0. */
  ghost predicate Apart(order: seq<seq<nat>>, moved: seq<nat>) {
    forall q :: 1 <= q < |order| ==> NoCommon(order[q], moved)
  }

  lemma StillApart(order: seq<seq<nat>>, i: nat, moved: seq<nat>)
    requires Disjoint(order) && 0 < i < |order| && order[i] != [] && Distinct(order[i]) && Apart(order, moved)
    ensures Apart(order[i := order[i][1..]][0 := order[0] + [order[i][0]]], moved + [order[i][0]])
  {
    assert order[i][0] in order[i];
    var order' := order[i := order[i][1..]][0 := order[0] + [order[i][0]]];
    forall q | 1 <= q < |order| ensures NoCommon(order'[q], moved + [order[i][0]]) {
      assert NoCommon(order[q], moved);
      assert q != i ==> NoCommon(order[q], order[i]);
    }
  }

  /** One more element of `xs` behind `base`. */
  lemma TakeOneMore(base: seq<nat>, xs: seq<nat>, m: nat)
    requires m < |xs|
    ensures base + xs[..m] + [xs[m]] == base + xs[..m + 1]
    ensures xs[m..][1..] == xs[m + 1..] && xs[m..][0] == xs[m]
    ensures Succ(xs[m..], 0, NIL) == if m + 1 < |xs| then xs[m + 1] else NIL
  {
  }

  lemma PromotedOne(before: seq<Pcb>, t: seq<Pcb>, moved: seq<nat>, front: ReadyQueue, n: nat)
    requires Promoted(before, t, moved) && n < |t| && n !in moved
    requires NIL <= t[n].next < |t| && NIL <= front.tail < |t|
    ensures Promoted(before, MoveTable(t, front, n), moved + [n])
  {
    forall x | 0 <= x < |t|
      ensures MoveTable(t, front, n)[x].info == if x in moved + [n] then Promote(before[x].info) else before[x].info
    {
    }
  }

  /** Exactly the ready processes are queued, each at its level. */
  ghost predicate Placed(s: Sched)
    requires Shape(s)
  {
    forall i :: 0 <= i < MAX_PROCESSES ==>
      if s.procs[i].phase == Ready then Queued(s, i) && s.procs[i].priority < MAX_PRIORITY_LEVELS
      else InNone(s.queues, i)
  }

  lemma InvPlaced(s: Sched)
    requires Inv(s)
    ensures Placed(s)
    ensures forall i :: 0 <= i < MAX_PROCESSES && Free(s.procs[i]) ==> InNone(s.queues, i)
    ensures s.current.Some? ==> InNone(s.queues, s.current.value)
  {
    forall i | 0 <= i < MAX_PROCESSES
      ensures if s.procs[i].phase == Ready then Queued(s, i) && s.procs[i].priority < MAX_PRIORITY_LEVELS
              else InNone(s.queues, i)
      ensures Free(s.procs[i]) ==> s.procs[i].phase != Ready
    {
      assert ProcOk(s, i);
      if s.procs[i].phase != Ready {
        forall q | 0 <= q < QUEUES ensures i !in s.queues[q] { assert QueueOk(s, q, {}); }
      }
    }
  }

  lemma TakeInNone(s: Sched, q: nat, i: nat)
    requires Shape(s) && q < QUEUES && s.queues[q] != [] && InNone(s.queues, i)
    ensures InNone(Take(s, q).queues, i)
  {
  }

  /** Whoever yields, somebody runs afterwards. */
  lemma YieldRuns(s: Sched)
    requires Shape(s) && s.current.Some?
    ensures Yield(s).current.Some?
  {
    var q := QueueOf(s.config, s.procs[s.current.value]);
    assert Release(s).queues[q] != [];
  }

  lemma InfosCut(t: seq<Pcb>, i: nat)
    requires i < |t| && NIL <= t[i].next < |t| && NIL <= t[i].prev < |t|
    ensures Infos(CutTable(t, i)) == Infos(t)
  {
  }

  class Scheduler {
    var config: Config
    var current: int
    var table: array<Pcb>
    /** mlfq.queues at 0 to 3, ready_queue at READY */
    var rq: array<ReadyQueue>
    var nextPid: nat
    var ticks: nat
    var lastBoost: nat
    var switches: nat
    var completed: nat
    var totalRuntime: nat
    ghost var order: seq<seq<nat>>

    /** The abstract state: table entries without their links, queues as sequences. */
    ghost function Abs(): (s: Sched)
      reads this, table
    {
      Sched(config, Infos(table[..]), if current < 0 then None else Some(current), order,
            nextPid, ticks, lastBoost, switches, completed, totalRuntime)
    }

    ghost predicate Rep()
      reads this, table, rq
    {
      && table.Length == MAX_PROCESSES && rq.Length == QUEUES
      && NIL <= current
      && AllLinked(table[..], rq[..], order)
      && Shape(Abs())
    }

    ghost predicate Valid()
      reads this, table, rq
    {
      Rep() && Inv(Abs())
    }

    method SetInfo(i: nat, p: Proc)
      requires Rep() && i < MAX_PROCESSES
      modifies table
      ensures Rep() && Abs() == SetProc(old(Abs()), i, p)
    {
      table[i] := table[i].(info := p);
      forall q | 0 <= q < QUEUES ensures Linked(table[..], rq[..][q], order[q], NIL) {
        LinkedFrame(old(table[..]), table[..], rq[..][q], order[q], NIL);
      }
      assert Infos(table[..]) == old(Infos(table[..]))[i := p];
    }

    /** add_to_ready_queue */
    method AddToReadyQueue(i: nat)
      requires Rep() && i < MAX_PROCESSES && InNone(order, i)
      modifies this`order, table, rq
      ensures Rep() && Abs() == Enqueue(old(Abs()), i)
    {
      hide AllLinked;
      var q := QueueOf(config, table[i].info);
      AppendKeeps(table[..], rq[..], order, q, i);
      WriteAppend(q, i);
      order := order[q := order[q] + [i]];
      assert Infos(table[..]) == old(Infos(table[..]));
    }

    method WriteAppend(q: nat, i: nat)
      requires q < rq.Length && i < table.Length && NIL <= rq[q].tail < table.Length
      requires rq[q].tail != i && (rq[q].head == NIL <==> rq[q].tail == NIL)
      modifies table, rq
      ensures table[..] == AppendTable(old(table[..]), old(rq[q]), i)
      ensures rq[..] == old(rq[..])[q := AppendHeader(old(rq[q]), i)]
    {
      table[i] := table[i].(next := NIL, prev := NIL);
      if rq[q].head == NIL {
        rq[q] := rq[q].(head := i, tail := i);
      } else {
        table[rq[q].tail] := table[rq[q].tail].(next := i);
        table[i] := table[i].(prev := rq[q].tail);
        rq[q] := rq[q].(tail := i);
      }
      rq[q] := rq[q].(count := rq[q].count + 1);
    }

    /** The head of queue `q` leaves it; its own links are left as they are. */
    method TakeHead(q: nat) returns (n: nat)
      requires Rep() && q < QUEUES && rq[q].count > 0
      modifies this`order, table, rq
      ensures Rep() && old(order[q]) != [] && n == old(order[q])[0]
      ensures Abs() == old(Abs()).(queues := old(order)[q := old(order[q])[1..]])
    {
      hide AllLinked;
      TakeKeeps(table[..], rq[..], order, q);
      n := WriteTake(q);
      order := order[q := order[q][1..]];
      assert Infos(table[..]) == old(Infos(table[..]));
    }

    method WriteTake(q: nat) returns (n: nat)
      requires q < rq.Length && rq[q].count > 0
      requires 0 <= rq[q].head < table.Length && NIL <= table[rq[q].head].next < table.Length
      requires table[rq[q].head].next == NIL <==> rq[q].head == rq[q].tail
      modifies table, rq
      ensures n == old(rq[q]).head
      ensures table[..] == SetPrev(old(table[..]), old(table[rq[q].head].next), NIL)
      ensures rq[..] == old(rq[..])[q := TakeHeader(old(rq[q]), old(table[rq[q].head].next))]
    {
      n := rq[q].head;
      if rq[q].head == rq[q].tail {
        rq[q] := rq[q].(head := NIL, tail := NIL);
      } else {
        rq[q] := rq[q].(head := table[rq[q].head].next);
        if rq[q].head != NIL {
          table[rq[q].head] := table[rq[q].head].(prev := NIL);
        }
      }
      rq[q] := rq[q].(count := rq[q].count - 1);
    }

    /** remove_from_ready_queue on a queued process */
    method RemoveFromReadyQueue(i: nat)
      requires Rep() && i < MAX_PROCESSES
      requires i in order[QueueOf(config, table[i].info)] && table[i].info.priority < MAX_PRIORITY_LEVELS
      modifies this`order, table, rq
      ensures Rep() && Abs() == Unlink(old(Abs()), i)
    {
      var q := QueueOf(config, table[i].info);
      CutKeeps(table[..], rq[..], order, q, i);
      InfosCut(table[..], i);
      WriteCut(q, i);
      order := order[q := Without(order[q], i)];
    }

    method WriteCut(q: nat, i: nat)
      requires q < rq.Length && i < table.Length && rq[q].count > 0
      requires NIL <= table[i].next < table.Length && NIL <= table[i].prev < table.Length
      requires table[i].next != i && table[i].prev != i
      modifies table, rq
      ensures table[..] == CutTable(old(table[..]), i)
      ensures rq[..] == old(rq[..])[q := CutHeader(old(rq[q]), old(table[i].next), old(table[i].prev))]
    {
      if table[i].prev != NIL {
        table[table[i].prev] := table[table[i].prev].(next := table[i].next);
      } else {
        rq[q] := rq[q].(head := table[i].next);
      }
      if table[i].next != NIL {
        table[table[i].next] := table[table[i].next].(prev := table[i].prev);
      } else {
        rq[q] := rq[q].(tail := table[i].prev);
      }
      if rq[q].count > 0 {
        rq[q] := rq[q].(count := rq[q].count - 1);
      }
      table[i] := table[i].(next := NIL, prev := NIL);
    }

    /** One round of the inner loop of a boost. */
    method WriteMove(g: nat)
      requires rq.Length == QUEUES && 0 < g < QUEUES && rq[g].count > 0
      requires 0 <= rq[g].head < table.Length && NIL <= table[rq[g].head].next < table.Length
      requires NIL <= rq[0].tail < table.Length && rq[0].tail != rq[g].head
      requires table[rq[g].head].prev == NIL && table[rq[g].head].next != rq[g].head
      requires table[rq[g].head].next == NIL <==> rq[g].head == rq[g].tail
      requires rq[0].head == NIL <==> rq[0].tail == NIL
      modifies table, rq
      ensures table[..] == MoveTable(old(table[..]), old(rq[0]), old(rq[g].head))
      ensures rq[..] == old(rq[..])[g := TakeHeader(old(rq[g]), old(table[rq[g].head].next))]
                                   [0 := AppendHeader(old(rq[0]), old(rq[g].head))]
    {
      var n := WriteTake(g);
      table[n] := table[n].(info := Promote(table[n].info));
      if rq[0].head == NIL {
        rq[0] := rq[0].(head := n, tail := n);
      } else {
        table[rq[0].tail] := table[rq[0].tail].(next := n);
        table[n] := table[n].(prev := rq[0].tail);
        rq[0] := rq[0].(tail := n);
      }
      rq[0] := rq[0].(count := rq[0].count + 1);
    }

    /** The queues and the table while a boost is under way. */
    ghost predicate Boosting(last: int, before: seq<Pcb>, moved: seq<nat>)
      reads this, table, rq
    {
      && table.Length == MAX_PROCESSES && rq.Length == QUEUES && |order| == QUEUES
      && LooselyLinked(table[..], rq[..], order, last)
      && Promoted(before, table[..], moved)
      && Apart(order, moved)
    }

    /** One round of the inner loop; the last link of level 0 now points to the new head of level `i`. */
    method MoveOne(i: nat, ghost last: int, ghost before: seq<Pcb>, ghost moved: seq<nat>)
      requires Boosting(last, before, moved) && 1 <= i < MAX_PRIORITY_LEVELS && rq[i].count > 0
      modifies this`order, table, rq
      ensures old(order[i]) != []
      ensures order == old(order)[i := old(order[i])[1..]][0 := old(order[0]) + [old(order[i])[0]]]
      ensures Boosting(Succ(old(order[i]), 0, NIL), before, moved + [old(order[i])[0]])
      ensures rq[i].count == old(rq[i].count) - 1
    {
      MoveKeeps(table[..], rq[..], order, i, last);
      ghost var n := order[i][0];
      assert NoCommon(order[i], moved) && n in order[i];
      PromotedOne(before, table[..], moved, rq[0], n);
      StillApart(order, i, moved);
      WriteMove(i);
      order := order[i := order[i][1..]][0 := order[0] + [n]];
      assert rq[..][i] == rq[i];
    }

    /** Level 0 ends in a link to the head of what is left of level `i`, or in NIL. */
    ghost function Dangling(xs: seq<nat>, m: nat): (r: int) {
      if 0 < m < |xs| then xs[m] else NIL
    }

    /** The inner loop of a boost: level `i` moves behind level 0. */
    method DrainLevel(i: nat, ghost before: seq<Pcb>, ghost moved: seq<nat>)
      requires Boosting(NIL, before, moved) && 1 <= i < MAX_PRIORITY_LEVELS
      modifies this`order, table, rq
      ensures old(|order|) == QUEUES && |order| == QUEUES
      ensures order[0] == old(order[0]) + old(order[i]) && order[i] == []
      ensures forall j :: 1 <= j < QUEUES && j != i ==> order[j] == old(order[j])
      ensures Boosting(NIL, before, moved + old(order[i]))
    {
      hide LooselyLinked, Promoted, Apart;
      ghost var xs, front, m := order[i], order[0], 0;
      assert xs[0..] == xs && moved + xs[..0] == moved && front + xs[..0] == front;
      LevelCount(i);
      while rq[i].count > 0
        invariant 0 <= m <= |xs| && |order| == QUEUES && rq.Length == QUEUES
        invariant order[0] == front + xs[..m] && order[i] == xs[m..] && rq[i].count == |xs| - m
        invariant forall j :: 1 <= j < QUEUES && j != i ==> order[j] == old(order[j])
        invariant Boosting(Dangling(xs, m), before, moved + xs[..m])
        decreases rq[i].count
      {
        TakeOneMore(front, xs, m);
        TakeOneMore(moved, xs, m);
        MoveOne(i, Dangling(xs, m), before, moved + xs[..m]);
        m := m + 1;
      }
      assert xs[..m] == xs;
    }

    lemma LevelCount(i: nat)
      requires |order| == QUEUES && rq.Length == QUEUES && 1 <= i < QUEUES &&
          LooselyLinked(table[..], rq[..], order, NIL)
      ensures rq[i].count == |order[i]|
    {
      assert Linked(table[..], rq[..][i], order[i], NIL);
    }

    /** Levels below `i` are drained into level 0, the others are untouched. */
    ghost predicate Drained(src: seq<seq<nat>>, i: nat)
      requires |src| == QUEUES && 1 <= i <= MAX_PRIORITY_LEVELS
      reads this
    {
      && |order| == QUEUES && order[READY] == src[READY]
      && order[0] == src[0] + Below(src, i)
      && (forall j :: 1 <= j < MAX_PRIORITY_LEVELS ==> order[j] == if j < i then [] else src[j])
    }

    lemma BoostBegins()
      requires Rep()
      ensures Boosting(NIL, table[..], Below(order, 1)) && Drained(order, 1)
    {
    }

    /** One level of a boost. */
    method BoostLevel(i: nat, ghost src: seq<seq<nat>>, ghost before: seq<Pcb>)
      requires |src| == QUEUES && 1 <= i < MAX_PRIORITY_LEVELS
      requires Drained(src, i) && Boosting(NIL, before, Below(src, i))
      modifies this`order, table, rq
      ensures Drained(src, i + 1) && Boosting(NIL, before, Below(src, i + 1))
    {
      BelowNext(src, i);
      DrainLevel(i, before, Below(src, i));
    }

    lemma BoostEnds(before: Sched, t: seq<Pcb>)
      requires Shape(before) && Infos(t) == before.procs && NIL <= current
      requires Boosting(NIL, t, Below(before.queues, MAX_PRIORITY_LEVELS)) &&
          Drained(before.queues, MAX_PRIORITY_LEVELS)
      requires Abs().(queues := before.queues, procs := before.procs) == before
      ensures Rep() && Abs() == Boost(before)
    {
      hide LooselyLinked, AllLinked, Promoted, Apart;
      LooseIsTight(table[..], rq[..], order);
      PromotedAll(before, t, table[..]);
      assert order == Boost(before).queues;
    }

    /**
     * scheduler_mlfq_boost_priority.  While a level is drained, the last link of
     * level 0 points to the head of that level.
     */
    method BoostPriority()
      requires Rep()
      modifies this`order, table, rq
      ensures Rep() && Abs() == Boost(old(Abs()))
    {
      hide LooselyLinked, Promoted, Apart, Drained, AllLinked;
      ghost var start := Abs();
      ghost var before := table[..];
      assert Shape(start) && Infos(before) == start.procs;
      BoostBegins();
      var i := 1;
      while i < MAX_PRIORITY_LEVELS
        invariant 1 <= i <= MAX_PRIORITY_LEVELS
        invariant Abs().(queues := start.queues, procs := start.procs) == start
        invariant Drained(start.queues, i) && Boosting(NIL, before, Below(start.queues, i))
      {
        BoostLevel(i, start.queues, before);
        i := i + 1;
      }
      BoostEnds(start, before);
    }

    lemma Counts()
      requires Rep()
      ensures forall q :: 0 <= q < QUEUES ==> rq[q].count == |order[q]|
    {
      forall q | 0 <= q < QUEUES ensures rq[q].count == |order[q]| {
        assert Linked(table[..], rq[..][q], order[q], NIL);
      }
    }

    /** scheduler_fifo_schedule, scheduler_rr_schedule and scheduler_mlfq_schedule */
    method PickNext() returns (n: int)
      requires Rep()
      modifies this`order, table, rq
      ensures Rep()
      ensures match Served(old(Abs()))
              case None => n == NIL && Abs() == old(Abs())
              case Some(q) => n == old(order[q])[0] && Abs() == Take(old(Abs()), q)
    {
      hide AllLinked;
      Counts();
      if config.kind.Mlfq? {
        var i := 0;
        while i < MAX_PRIORITY_LEVELS && rq[i].count == 0
          invariant 0 <= i <= MAX_PRIORITY_LEVELS
          invariant forall j :: 0 <= j < i ==> order[j] == []
        {
          i := i + 1;
        }
        if i < MAX_PRIORITY_LEVELS {
          n := TakeHead(i);
          SetInfo(n, table[n].info.(slice := LevelSlice(config, i), inQueue := 0));
        } else {
          n := NIL;
        }
      } else if rq[READY].count == 0 {
        n := NIL;
      } else {
        n := TakeHead(READY);
      }
    }

    /** scheduler_schedule */
    method Reschedule()
      requires Rep() && (current != NIL && table[current].info.phase == Running ==> InNone(order, current))
      modifies `current, `switches, `order, table, rq
      ensures Rep() && Abs() == Schedule(old(Abs()))
    {
      hide AllLinked;
      ghost var s := Abs();
      var next := PickNext();
      if next != NIL && next != current {
        if current != NIL && table[current].info.phase == Running {
          TakeInNone(s, Served(s).value, current);
          SetInfo(current, table[current].info.(phase := Ready));
          AddToReadyQueue(current);
        }
        assert Abs() == PutBack(Take(s, Served(s).value));
        SwitchTo(next);
      } else if next != NIL {
        SetInfo(next, table[next].info.(phase := Running, sliceUsed := 0));
      }
    }

    /** The context switch at the end of scheduler_schedule. */
    method SwitchTo(next: nat)
      requires Rep() && next < MAX_PROCESSES
      modifies `current, `switches, table
      ensures Rep() && Abs() == Switch(old(Abs()), next)
    {
      hide AllLinked;
      current := next;
      SetInfo(next, table[next].info.(phase := Running, timeStarted := ticks, sliceUsed := 0));
      switches := switches + 1;
    }

    /** scheduler_yield */
    method YieldCpu()
      requires Rep() && (current != NIL ==> InNone(order, current))
      modifies `current, `switches, `order, table, rq
      ensures Rep() && Abs() == Yield(old(Abs()))
    {
      if current != NIL {
        SetInfo(current, table[current].info.(phase := Ready));
        AddToReadyQueue(current);
      }
      Reschedule();
    }

    /** scheduler_tick */
    method TimerTick()
      requires Rep() && (current != NIL ==> InNone(order, current))
      modifies `current, `switches, `order, `ticks, `lastBoost, table, rq
      ensures Rep() && Abs() == Tick(old(Abs()))
    {
      hide AllLinked, Yield, Settle;
      ghost var s := Abs();
      ticks := ticks + 1;
      if current != NIL {
        var p := table[current].info;
        SetInfo(current, p.(timeUsed := p.timeUsed + 1, sliceUsed := p.sliceUsed + 1));
        assert Abs() == Charge(s);
        if config.preemption && table[current].info.sliceUsed >= table[current].info.slice {
          YieldRuns(Abs());
          YieldCpu();
        }
        assert Abs() == Preempt(Charge(s));
        AgeAndBoost();
      }
    }

    /** The MLFQ part of scheduler_tick. */
    method AgeAndBoost()
      requires Rep() && current != NIL
      modifies `order, `lastBoost, table, rq
      ensures Rep() && Abs() == Settle(old(Abs()))
    {
      hide AllLinked, Boost;
      if config.kind.Mlfq? {
        SetInfo(current, table[current].info.(inQueue := table[current].info.inQueue + 1));
        if ticks - lastBoost >= config.boostInterval {
          BoostPriority();
          lastBoost := ticks;
        }
      }
    }

    /** find_free_pcb */
    method FindFreePcb() returns (i: int)
      requires table.Length == MAX_PROCESSES
      ensures match FirstFree(Infos(table[..]), 0)
              case None => i == NIL
              case Some(k) => i == k
    {
      i := 0;
      while i < MAX_PROCESSES
        invariant 0 <= i <= MAX_PROCESSES
        invariant FirstFree(Infos(table[..]), 0) == FirstFree(Infos(table[..]), i)
      {
        if table[i].info.phase == Terminated || table[i].info.pid == 0 {
          return;
        }
        i := i + 1;
      }
      i := NIL;
    }

    /** scheduler_create_process: the slot of the new process, or NIL when the table is full */
    method CreateProcess(priority: nat) returns (i: int)
      requires Rep() && priority < MAX_PRIORITY_LEVELS
      requires forall k :: 0 <= k < MAX_PROCESSES && Free(table[k].info) ==> InNone(order, k)
      modifies `order, `nextPid, table, rq
      ensures Rep() && Abs() == Create(old(Abs()), priority)
      ensures match FirstFree(old(Abs()).procs, 0)
              case None => i == NIL
              case Some(k) => i == k
    {
      i := FindFreePcb();
      if i == NIL {
        return;
      }
      var p := table[i].info.(
        pid := nextPid, phase := Ready, priority := priority,
        timeCreated := ticks, timeStarted := 0, timeUsed := 0,
        slice := TIME_SLICE_BASE * (MAX_PRIORITY_LEVELS - priority), sliceUsed := 0);
      SetInfo(i, p);
      nextPid := nextPid + 1;
      AddToReadyQueue(i);
    }

    /** scheduler_terminate_process */
    method TerminateProcess(pid: nat)
      requires Rep() && Placed(Abs())
      modifies `current, `switches, `order, `completed, `totalRuntime, table, rq
      ensures Rep() && Abs() == Terminate(old(Abs()), pid)
    {
      hide AllLinked;
      var i := 0;
      while i < MAX_PROCESSES && !(table[i].info.pid == pid && table[i].info.phase != Terminated)
        invariant 0 <= i <= MAX_PROCESSES
        invariant FirstMatch(Infos(table[..]), pid, 0) == FirstMatch(Infos(table[..]), pid, i)
      {
        i := i + 1;
      }
      if i == MAX_PROCESSES {
        return;
      }
      EndProcess(i);
      if current != NIL && table[current].info.pid == pid {
        current := NIL;
        Reschedule();
      }
    }

    /** Slot `i` ends; a queued process leaves its queue. */
    method EndProcess(i: nat)
      requires Rep() && Placed(Abs()) && i < MAX_PROCESSES
      modifies `order, `completed, `totalRuntime, table, rq
      ensures Rep() && Abs() == Retire(old(Abs()), i)
    {
      hide AllLinked;
      ghost var s := Abs();
      assert s.procs[i] == table[i].info;
      var queued := table[i].info.phase == Ready;
      SetInfo(i, table[i].info.(phase := Terminated));
      if queued {
        RemoveFromReadyQueue(i);
      } else {
        WithoutAbsent(order[QueueOf(config, table[i].info)], i);
      }
      completed := completed + 1;
      totalRuntime := totalRuntime + table[i].info.timeUsed;
    }

    /** Any call of the interface is one step of the machine, and the invariant survives it. */
    method Apply(e: Event)
      requires Valid() && Legal(e)
      modifies this, table, rq
      ensures table == old(table) && rq == old(rq)
      ensures Valid() && Abs() == Step(old(Abs()), e)
    {
      hide AllLinked, Inv, Tick, Yield, Schedule, Create, Terminate, Placed, InTable;
      InvStep(Abs(), e);
      InvPlaced(Abs());
      match e
      case ECreate(priority) => var _ := CreateProcess(priority);
      case ETick => TimerTick();
      case EYield => YieldCpu();
      case ESchedule => Reschedule();
      case ETerminate(pid) => TerminateProcess(pid);
    }

    /** Whole runs: the linked queues follow the step machine call by call. */
    method ApplyAll(es: seq<Event>)
      requires Valid() && AllLegal(es)
      modifies this, table, rq
      ensures table == old(table) && rq == old(rq)
      ensures Valid() && Abs() == Run(old(Abs()), es)
      decreases es
    {
      hide AllLinked, Inv, Step, InTable;
      if es != [] {
        Apply(es[0]);
        ApplyAll(es[1..]);
      }
    }

    /** scheduler_init */
    constructor (config: Config)
      ensures Valid() && Abs() == Init(config) && fresh(table) && fresh(rq)
    {
      var slice := if config.kind.RoundRobin? then config.timeQuantum else 0;
      this.config := config;
      current := NIL;
      nextPid, ticks, lastBoost, switches, completed, totalRuntime := 1, 0, 0, 0, 0, 0;
      table := new Pcb[MAX_PROCESSES](_ => Pcb(Proc(0, New, 0, 0, 0, 0, slice, 0, 0, 0), NIL, NIL));
      rq := new ReadyQueue[QUEUES](_ => ReadyQueue(NIL, NIL, 0));
      order := [[], [], [], [], []];
      new;
      InvInit(config);
      assert Abs() == Init(config);
    }
  }
}
