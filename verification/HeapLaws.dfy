/**
 * What kmalloc, kfree and krealloc leave behind, told without the functions that
 * define them: which blocks are free, how they were joined, and the counters as
 * numbers.
 */
module HeapLaws {
  import opened Common
  import opened Bytes
  import opened HeapModel

  // ----- joined lists -----------------------------------------------------------------

  /** A nonempty run of blocks, each ending where the next one begins. */
  ghost predicate Chained(g: seq<Block>) {
    g != [] && forall i :: 1 <= i < |g| ==> End(g[i - 1]) == g[i].addr
  }

  function Concat(groups: seq<seq<Block>>): (r: seq<Block>) {
    if groups == [] then [] else groups[0] + Concat(groups[1..])
  }

  /** `y` reaches from the start of the run to its end. */
  ghost predicate Spans(y: Block, g: seq<Block>) {
    Chained(g) && y.addr == g[0].addr && End(y) == End(g[|g| - 1])
  }

  /** `xs` falls into runs of touching neighbours, and each becomes one block of `ys`, in the order of the list. */
  ghost predicate JoinedAs(xs: seq<Block>, ys: seq<Block>, groups: seq<seq<Block>>) {
    && Concat(groups) == xs && |groups| == |ys|
    && forall j :: 0 <= j < |ys| ==> Spans(ys[j], groups[j])
  }

  /** `ys` is `xs` with all touching list neighbours joined. */
  ghost predicate Coalesced(xs: seq<Block>, ys: seq<Block>) {
    Settled(ys) && exists groups :: JoinedAs(xs, ys, groups)
  }

  lemma JoinFirst(xs: seq<Block>, ys: seq<Block>, groups: seq<seq<Block>>) returns (r: seq<seq<Block>>)
    requires |xs| >= 2 && End(xs[0]) == xs[1].addr
    requires JoinedAs([Joined(xs[0], xs[1])] + xs[2..], ys, groups)
    ensures JoinedAs(xs, ys, r)
  {
    var zs := [Joined(xs[0], xs[1])] + xs[2..];
    assert groups != [] && Spans(ys[0], groups[0]);
    var g := groups[0];
    assert zs == g + Concat(groups[1..]) && g[0] == zs[0];
    var f := [xs[0], xs[1]] + g[1..];
    r := [f] + groups[1..];
    ChainGrows(xs[0], xs[1], g);
    assert f + Concat(groups[1..]) == [xs[0], xs[1]] + zs[1..] == xs;
    assert r[1..] == groups[1..];
  }

  lemma ChainGrows(a: Block, b: Block, g: seq<Block>)
    requires Chained(g) && g[0] == Joined(a, b) && End(a) == b.addr
    ensures var f := [a, b] + g[1..];
            Chained(f) && f[0].addr == g[0].addr && End(f[|f| - 1]) == End(g[|g| - 1])
  {
    var f := [a, b] + g[1..];
    forall i | 1 <= i < |f| ensures End(f[i - 1]) == f[i].addr {
      if i > 1 { assert f[i] == g[i - 1] && End(g[i - 2]) == g[i - 1].addr; }
    }
  }

  lemma {:induction false} MergeJoins(free: seq<Block>) returns (groups: seq<seq<Block>>)
    ensures JoinedAs(free, Merge(free), groups)
    decreases |free|
  {
    if |free| == 0 {
      groups := [];
    } else if |free| == 1 {
      groups := [free];
    } else if End(free[0]) == free[1].addr {
      groups := MergeJoins([Joined(free[0], free[1])] + free[2..]);
      groups := JoinFirst(free, Merge(free), groups);
    } else {
      groups := MergeJoins(free[1..]);
      KeepFirst(free, Merge(free[1..]), groups);
      groups := [[free[0]]] + groups;
    }
  }

  lemma KeepFirst(xs: seq<Block>, ys: seq<Block>, groups: seq<seq<Block>>)
    requires xs != [] && JoinedAs(xs[1..], ys, groups)
    ensures JoinedAs(xs, [xs[0]] + ys, [[xs[0]]] + groups)
  {
    assert ([[xs[0]]] + groups)[1..] == groups;
    assert Spans(xs[0], [xs[0]]);
  }

  lemma MergeCoalesced(free: seq<Block>)
    ensures Coalesced(free, Merge(free))
  {
    MergeSettles(free);
    var groups := MergeJoins(free);
  }

  // ----- kfree ----------------------------------------------------------------------------

  /** kfree of a live block leaves a coalesced list of exactly the old free bytes and the block's own. */
  lemma FreeLaw(h: Heap, k: nat)
    requires Inv(h) && k < |h.live|
    ensures var b, r := h.live[k], Free(h, h.live[k].addr + 16);
            && r == h.(free := r.free, live := h.live[..k] + h.live[k + 1..], frees := h.frees + 1,
                       usedMem := h.usedMem - (b.size + 16),
                       freeMem := h.freeMem + (b.size + 16) + 24 * (|h.free| + 1 - |r.free|))
            && Coalesced([b] + h.free, r.free)
            && forall a :: Covered(r.free, a) <==> Covers(b, a) || Covered(h.free, a)
  {
    hide Merge, Coalesced;
    var b := h.live[k];
    FindAt(h.live, k);
    MergeCoalesced([b] + h.free);
    forall a ensures Covered(Merge([b] + h.free), a) <==> Covers(b, a) || Covered(h.free, a) {
      MergeCovers([b] + h.free, a);
      CoveredCons(b, h.free, a);
    }
  }

  /** Any other pointer is ignored. */
  lemma FreeUnknown(h: Heap, ptr: nat)
    requires forall k :: 0 <= k < |h.live| ==> h.live[k].addr + 16 != ptr
    ensures Free(h, ptr) == h
  {
  }

  // ----- kmalloc --------------------------------------------------------------------------

  /** What is left of block `b` behind `size` bytes: a block of 32 bytes at least behind its own header, or nothing. */
  function Leftover(b: Block, size: nat): (r: seq<Block>)
    requires size <= b.size
  {
    if b.size < size + 24 + 32 then [] else [Block(b.addr + 24 + size, b.size - size - 24)]
  }

  /**
   * A successful kmalloc takes the first of the smallest sufficient blocks of the
   * free list, which it coalesces before only if no block is sufficient; the
   * remainder takes the block's place in the list.
   */
  lemma MallocLaw(h: Heap, n: nat) returns (searched: seq<Block>, k: nat)
    requires n < TWO64 && Malloc(h, n).1 != 0
    ensures if exists i :: 0 <= i < |h.free| && h.free[i].size >= AlignUp(n)
            then searched == h.free else Coalesced(h.free, searched)
    ensures IsBest(searched, AlignUp(n), k)
    ensures var b, size := searched[k], AlignUp(n);
            var rest := Leftover(b, size);
            Malloc(h, n) ==
            (h.(free := searched[..k] + rest + searched[k + 1..],
                live := [Block(b.addr, size)] + h.live,
                freeMem := h.freeMem + 24 * (|h.free| - |searched|) - 24 * |rest| - (size + 16),
                usedMem := h.usedMem + (size + 16), allocs := h.allocs + 1,
                lost := h.lost + (if rest == [] then b.size - size else 0)),
             b.addr + 16)
  {
    hide Merge, Coalesced, AlignUp, Malloc, BestFit, Rest;
    MergeCoalesced(h.free);
    searched, k := MallocOptimal(h, n);
    Sufficient(h.free, AlignUp(n));
    MallocCarves(h, n, searched, k);
    RestIs(searched[k], AlignUp(n));
  }

  lemma Sufficient(free: seq<Block>, size: nat)
    ensures (exists i :: 0 <= i < |free| && free[i].size >= size) <==>
            exists i :: 0 <= i < |free| && Fits(free[i], size)
  {
    if exists i :: 0 <= i < |free| && free[i].size >= size {
      var i :| 0 <= i < |free| && free[i].size >= size;
      assert Fits(free[i], size);
    }
  }

  lemma RestIs(b: Block, size: nat)
    requires Fits(b, size)
    ensures Rest(b, size) == Leftover(b, size)
  {
  }

  lemma MallocCarves(h: Heap, n: nat, searched: seq<Block>, k: nat)
    requires n < TWO64 && Malloc(h, n).1 != 0
    requires searched == if exists i :: 0 <= i < |h.free| && Fits(h.free[i], AlignUp(n)) then h.free else Merge(h.free)
    requires IsBest(searched, AlignUp(n), k)
    ensures Malloc(h, n) ==
            (Carve(h.(free := searched, freeMem := h.freeMem + 24 * (|h.free| - |searched|)), k, AlignUp(n)),
             searched[k].addr + 16)
  {
    hide Merge, AlignUp, Carve;
    BestUnique(searched, AlignUp(n), k);
  }

  lemma BestUnique(free: seq<Block>, size: nat, k: nat)
    requires IsBest(free, size, k)
    ensures BestFit(free, size) == Some(k)
  {
  }

  /** A failing kmalloc of a size other than 0 only coalesces. */
  lemma MallocFails(h: Heap, n: nat)
    requires 0 < n < TWO64 && Malloc(h, n).1 == 0
    ensures var r := Malloc(h, n).0;
            && r == h.(free := r.free, freeMem := h.freeMem + 24 * (|h.free| - |r.free|))
            && Coalesced(h.free, r.free)
            && forall i :: 0 <= i < |r.free| ==> r.free[i].size < AlignUp(n)
  {
    hide Merge, Coalesced, AlignUp;
    MergeCoalesced(h.free);
  }

  lemma MallocNothing(h: Heap)
    ensures Malloc(h, 0) == (h, 0)
  {
  }

  // ----- round trips -------------------------------------------------------------------------

  /**
   * Freeing a block right after a splitting allocation restores a coalesced free
   * list, and both counters, exactly when the block was taken from its head: the
   * freed block becomes the head, and only list neighbours are joined.
   */
  lemma RoundTrip(h: Heap, n: nat) returns (k: nat)
    requires Inv(h) && Settled(h.free) && 0 < n < TWO64 && Malloc(h, n).1 != 0
    requires |Malloc(h, n).0.free| == |h.free|
    ensures IsBest(h.free, AlignUp(n), k)
    ensures var r := Free(Malloc(h, n).0, Malloc(h, n).1);
            && (r.free == h.free <==> k == 0)
            && (r.freeMem == h.freeMem <==> k == 0)
            && r.live == h.live && r.usedMem == h.usedMem && r.lost == h.lost
  {
    hide AlignUp, Merge, Malloc, BestFit, Rest, Inv, Release;
    var searched;
    SettledMerge(h.free);
    searched, k := MallocOptimal(h, n);
    MallocCarves(h, n, searched, k);
    assert h.(free := searched, freeMem := h.freeMem + 24 * (|h.free| - |searched|)) == h;
    FreeAgain(h, n, k);
  }

  lemma FreeAgain(h: Heap, n: nat, k: nat)
    requires Inv(h) && Settled(h.free) && n < TWO64 && IsBest(h.free, AlignUp(n), k)
    requires Rest(h.free[k], AlignUp(n)) != []
    ensures var m := Carve(h, k, AlignUp(n));
            var r := Release(m, 0);
            && (r.free == h.free <==> k == 0)
            && (r.freeMem == h.freeMem <==> k == 0)
            && r.live == h.live && r.usedMem == h.usedMem && r.lost == h.lost
  {
    hide AlignUp, Inv, Settled;
    var size := AlignUp(n);
    var m := Carve(h, k, size);
    var b := Block(h.free[k].addr, size);
    assert m.live[0] == b && Drop(m.live, 0) == h.live;
    var rest := Rest(h.free[k], size);
    if k == 0 {
      assert Joined(b, rest[0]) == h.free[0] && End(b) == rest[0].addr;
      var xs := [b] + m.free;
      assert [Joined(xs[0], xs[1])] + xs[2..] == h.free;
      SettledMerge(h.free);
    } else {
      SplitApart(h, k, size);
      assert Merge([b] + m.free) == [b] + m.free;
    }
  }

  /** Behind another list head the freed block touches no list neighbour. */
  lemma SplitApart(h: Heap, k: nat, size: nat)
    requires Inv(h) && Settled(h.free) && 0 < k < |h.free| && Fits(h.free[k], size) && Rest(h.free[k], size) != []
    ensures var xs := [Block(h.free[k].addr, size)] + Carve(h, k, size).free;
            Merge(xs) == xs && |xs| == |h.free| + 1
  {
    hide Merge;
    var b := Block(h.free[k].addr, size);
    var xs := [b] + Carve(h, k, size).free;
    assert Apart(h.free[0], h.free[k]);
    forall i | 1 <= i < |xs| ensures End(xs[i - 1]) != xs[i].addr {
      if i == 1 {
        assert xs[1] == h.free[0];
      } else if i - 1 < k {
        assert xs[i - 1] == h.free[i - 2] && xs[i] == h.free[i - 1];
      }
    }
    SettledMerge(xs);
  }

  /**
   * In a fresh heap an allocation and its free restore both counters, and the one
   * free block too, exactly when the allocation split it or took all of it.
   */
  lemma FreshRoundTrip(lo: nat, hi: nat, n: nat)
    requires 0 < lo && lo + 24 <= hi < TWO64 && lo % 8 == 0 && hi % 8 == 0
    requires 0 < n < TWO64 && Malloc(Init(lo, hi), n).1 != 0
    ensures var h, m := Init(lo, hi), Malloc(Init(lo, hi), n).0;
            var r := Free(m, Malloc(Init(lo, hi), n).1);
            && (r.free == h.free <==> m.free != [] || AlignUp(n) == hi - lo - 24)
            && r.freeMem == h.freeMem && r.usedMem == h.usedMem && r.live == []
  {
    hide Merge, AlignUp, Malloc, BestFit, Free;
    var h := Init(lo, hi);
    InvInit(lo, hi);
    var searched, k := MallocLaw(h, n);
    SettledAlone(h.free, searched);
    if Malloc(h, n).0.free != [] {
      var k' := RoundTrip(h, n);
    } else {
      InvMalloc(h, n);
      FreeLaw(Malloc(h, n).0, 0);
      assert [Malloc(h, n).0.live[0]] + [] == [Malloc(h, n).0.live[0]];
      SettledAlone([Malloc(h, n).0.live[0]], Free(Malloc(h, n).0, Malloc(h, n).1).free);
    }
  }

  lemma SettledAlone(xs: seq<Block>, ys: seq<Block>)
    requires |xs| == 1 && (ys == xs || Coalesced(xs, ys))
    ensures ys == xs
  {
    if ys != xs {
      var groups :| JoinedAs(xs, ys, groups);
      GroupsAlone(xs, ys, groups);
    }
  }

  lemma GroupsAlone(xs: seq<Block>, ys: seq<Block>, groups: seq<seq<Block>>)
    requires |xs| == 1 && JoinedAs(xs, ys, groups)
    ensures ys == xs
  {
    assert forall j :: 0 <= j < |groups| ==> Spans(ys[j], groups[j]);
    ConcatLength(groups);
    assert groups != [] && Spans(ys[0], groups[0]);
    assert groups[0] == xs;
    assert ys[0] == xs[0];
  }

  lemma {:induction false} ConcatLength(groups: seq<seq<Block>>)
    requires forall j :: 0 <= j < |groups| ==> groups[j] != []
    ensures |Concat(groups)| >= |groups|
  {
    if groups != [] { ConcatLength(groups[1..]); }
  }

  // ----- krealloc ----------------------------------------------------------------------------

  /** A live block that is large enough stays, and size 0 frees it. */
  lemma ReallocStays(h: Heap, k: nat, n: nat)
    requires Inv(h) && k < |h.live| && n < TWO64
    ensures var ptr := h.live[k].addr + 16;
            && (0 < n <= h.live[k].size ==> Realloc(h, ptr, n) == (h, ptr))
            && Realloc(h, ptr, 0) == (Free(h, ptr), 0)
            && Realloc(h, 0, n) == Malloc(h, n)
  {
    FindAt(h.live, k);
  }

  /**
   * A live block that is too small moves, or stays when there is no room: the new
   * block was free memory, it becomes the first live one, the old one's bytes are
   * free, and both calls are counted.
   */
  lemma ReallocMoves(h: Heap, k: nat, n: nat)
    requires Inv(h) && k < |h.live| && h.live[k].size < n < TWO64
    ensures var b, ptr := h.live[k], h.live[k].addr + 16;
            var (r, p) := Realloc(h, ptr, n);
            if p == 0 then
              && r == h.(free := r.free, freeMem := h.freeMem + 24 * (|h.free| - |r.free|))
              && Coalesced(h.free, r.free)
              && forall i :: 0 <= i < |r.free| ==> r.free[i].size < AlignUp(n)
            else
              var c := Block(p - 16, AlignUp(n));
              && p >= 16 && r.live == [c] + h.live[..k] + h.live[k + 1..]
              && r.usedMem == h.usedMem + AlignUp(n) - b.size
              && r.allocs == h.allocs + 1 && r.frees == h.frees + 1 && Settled(r.free)
              && (forall a :: Covers(c, a) ==> Covered(h.free, a))
              && (forall a :: Covers(b, a) ==> Covered(r.free, a))
  {
    hide Merge, AlignUp, Malloc, BestFit, Free, Coalesced, Inv, Covered, Covers;
    InvLive(h);
    FindAt(h.live, k);
    if Malloc(h, n).1 == 0 { MallocFails(h, n); } else { Moved(h, k, n); }
  }

  lemma Moved(h: Heap, k: nat, n: nat)
    requires Inv(h) && k < |h.live| && 0 < n < TWO64 && Malloc(h, n).1 != 0
    ensures Malloc(h, n).1 >= 16
    ensures var b, c := h.live[k], Block(Malloc(h, n).1 - 16, AlignUp(n));
            var r := Free(Malloc(h, n).0, b.addr + 16);
            && r.live == [c] + h.live[..k] + h.live[k + 1..]
            && r.usedMem == h.usedMem + AlignUp(n) - b.size
            && r.allocs == h.allocs + 1 && r.frees == h.frees + 1 && Settled(r.free)
            && (forall a :: Covers(c, a) ==> Covered(h.free, a))
            && (forall a :: Covers(b, a) ==> Covered(r.free, a))
  {
    hide Merge, AlignUp, Malloc, BestFit, Free, Inv, Covered, Covers;
    var m := Malloc(h, n).0;
    MallocWithin(h, n);
    var searched, j := MallocLaw(h, n);
    InvMalloc(h, n);
    assert m.live[k + 1] == h.live[k];
    FreeLaw(m, k + 1);
    assert m.live[..k + 1] == [m.live[0]] + h.live[..k];
    assert m.live[k + 2..] == h.live[k + 1..];
  }

  // ----- runs ----------------------------------------------------------------------------------

  /** In every run the live blocks are the allocations less the frees, a moving krealloc being one of each. */
  lemma {:induction false} AllocationsBalance(h: Heap, es: seq<Event>)
    requires AllLegal(es)
    ensures |Run(h, es).live| - |h.live| == (Run(h, es).allocs - h.allocs) - (Run(h, es).frees - h.frees)
    decreases es
  {
    hide Malloc, Free;
    if es != [] {
      StepBalances(h, es[0]);
      AllocationsBalance(Step(h, es[0]), es[1..]);
    }
  }

  lemma StepBalances(h: Heap, e: Event)
    requires Legal(e)
    ensures var r := Step(h, e); |r.live| - |h.live| == (r.allocs - h.allocs) - (r.frees - h.frees)
  {
    hide Malloc, Free;
    if e.EFree? {
      FreeBalances(h, e.ptr);
    } else {
      MallocBalances(h, e.n);
      if e.ERealloc? {
        FreeBalances(h, e.ptr);
        FreeBalances(Malloc(h, e.n).0, e.ptr);
      }
    }
  }

  lemma FreeBalances(h: Heap, ptr: nat)
    ensures var r := Free(h, ptr); |r.live| - |h.live| == -(r.frees - h.frees) && r.allocs == h.allocs
  {
    hide Merge;
  }

  lemma MallocBalances(h: Heap, n: nat)
    requires n < TWO64
    ensures var r := Malloc(h, n).0; |r.live| - |h.live| == r.allocs - h.allocs && r.frees == h.frees
  {
    hide Merge, BestFit, AlignUp;
  }

  /** From initialisation on, the statistics tell how many blocks are live. */
  lemma LiveCounted(lo: nat, hi: nat, es: seq<Event>)
    requires lo + 24 <= hi && AllLegal(es)
    ensures var h := Run(Init(lo, hi), es); h.allocs == h.frees + |h.live|
  {
    AllocationsBalance(Init(lo, hi), es);
  }
}
