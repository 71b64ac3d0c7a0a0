/**
 * The allocator as the kernel runs it: one byte array, headers written in place,
 * a free list walked through `next` words.  Each method is proved to do to the
 * abstract heap what module HeapModel says and to write only into memory that
 * is free at the time of the call.
 */
module Allocator {
  import opened Common
  import opened Bytes
  import opened HeapModel
  import opened HeapMemory

  /** Two lists of blocks cover the same bytes. */
  ghost predicate SameCover(xs: seq<Block>, ys: seq<Block>) {
    forall a :: Covered(xs, a) <==> Covered(ys, a)
  }

  lemma CoverItself(xs: seq<Block>)
    ensures SameCover(xs, xs)
  {
  }

  /** What a merge step of coalescing does to the list. */
  lemma JoinStep(xs: seq<Block>, k: nat)
    requires Pairwise(xs) && k + 1 < |xs| && End(xs[k]) == xs[k + 1].addr
    ensures var ys := xs[..k] + [Joined(xs[k], xs[k + 1])] + xs[k + 2..];
            && ys[..k] == xs[..k] && Merge(xs[k..]) == Merge(ys[k..]) && Pairwise(ys) && SameCover(ys, xs)
  {
    var ys := xs[..k] + [Joined(xs[k], xs[k + 1])] + xs[k + 2..];
    assert xs[k..][2..] == xs[k + 2..];
    assert ys[k..] == [Joined(xs[k], xs[k + 1])] + xs[k..][2..];
    JoinPairwise(xs, k);
    forall a ensures Covered(ys, a) <==> Covered(xs, a) {
      JoinCovers(xs, k, a);
    }
  }

  /** What a merge step of coalescing does to the memory, in a pass that began with `m` and the list `was`. */
  lemma JoinEffects(m: seq<Byte>, before: seq<Byte>, after: seq<Byte>, was: seq<Block>, xs: seq<Block>, k: nat)
    requires Pairwise(xs) && k + 1 < |xs| && End(xs[k]) == xs[k + 1].addr
    requires KeptOutside(m, before, was) && SameCover(xs, was) && HeaderOnly(before, after, xs[k].addr)
    requires xs[0].addr + BLOCK_HEADER <= |before| && xs[k].addr + BLOCK_HEADER <= |before| == |after|
    requires after[xs[k].addr + 9] == before[xs[k].addr + 9]
    ensures KeptOutside(m, after, was)
    ensures SameCover(xs[..k] + [Joined(xs[k], xs[k + 1])] + xs[k + 2..], was)
    ensures after[xs[0].addr + 9] == before[xs[0].addr + 9]
  {
    hide HeaderOnly, KeptOutside;
    JoinStep(xs, k);
    if k > 0 {
      HeadersApart(xs, 0, k);
      HeaderElsewhere(before, after, xs[k].addr, xs[0].addr + 9);
    }
    HeaderWithin(before, after, xs, k);
    KeptTwice(m, before, after, was, xs);
  }

  /** A block that does not touch its successor stays as it is. */
  lemma MergeSkips(xs: seq<Block>, k: nat)
    requires k < |xs| && (k + 1 < |xs| ==> End(xs[k]) != xs[k + 1].addr)
    ensures xs[..k] + Merge(xs[k..]) == xs[..k + 1] + Merge(xs[k + 1..])
  {
    assert xs[k..][1..] == xs[k + 1..];
  }

  lemma JoinPairwise(xs: seq<Block>, k: nat)
    requires Pairwise(xs) && k + 1 < |xs| && End(xs[k]) == xs[k + 1].addr
    ensures Pairwise(xs[..k] + [Joined(xs[k], xs[k + 1])] + xs[k + 2..])
  {
    var ys := xs[..k] + [Joined(xs[k], xs[k + 1])] + xs[k + 2..];
    forall i, j | 0 <= i < j < |ys| ensures Apart(ys[i], ys[j]) {
      var oi, oj := if i <= k then i else i + 1, if j <= k then j else j + 1;
      assert Apart(xs[oi], xs[oj]);
      assert i == k ==> Apart(xs[k + 1], xs[oj]);
      assert j == k ==> Apart(xs[oi], xs[k + 1]);
    }
  }

  lemma JoinCovers(xs: seq<Block>, k: nat, a: nat)
    requires k + 1 < |xs| && End(xs[k]) == xs[k + 1].addr
    ensures Covered(xs[..k] + [Joined(xs[k], xs[k + 1])] + xs[k + 2..], a) <==> Covered(xs, a)
  {
    var ys := xs[..k] + [Joined(xs[k], xs[k + 1])] + xs[k + 2..];
    if Covered(xs, a) {
      var i :| 0 <= i < |xs| && Covers(xs[i], a);
      assert Covers(ys[if i <= k then i else i - 1], a);
    }
    if Covered(ys, a) {
      var i :| 0 <= i < |ys| && Covers(ys[i], a);
      if i == k {
        assert Covers(xs[k], a) || Covers(xs[k + 1], a);
      } else {
        assert Covers(xs[if i < k then i else i + 1], a);
      }
    }
  }

  lemma JoinPlaced(lo: nat, hi: nat, xs: seq<Block>, k: nat)
    requires AllPlaced(lo, hi, xs) && k + 1 < |xs| && End(xs[k]) == xs[k + 1].addr
    ensures AllPlaced(lo, hi, xs[..k] + [Joined(xs[k], xs[k + 1])] + xs[k + 2..])
  {
    var ys := xs[..k] + [Joined(xs[k], xs[k + 1])] + xs[k + 2..];
    assert forall i :: 0 <= i < |ys| && i != k ==> ys[i] == xs[if i < k then i else i + 1];
  }

  // The writes of the allocator's methods, as functions of the memory.

  function Rewrite(m: seq<Byte>, a: nat, size: nat, next: nat): (r: seq<Byte>)
    requires a + BLOCK_HEADER <= |m|
    ensures |r| == |m|
  {
    PutWord(PutWord(m, a, size), a + 16, next)
  }

  function Fresh(m: seq<Byte>, a: nat, size: nat, next: nat): (r: seq<Byte>)
    requires a + BLOCK_HEADER <= |m|
    ensures |r| == |m|
  {
    PutWord(Put(PutWord(m, a, size), a + 8, [BLOCK_MAGIC]), a + 16, next)
  }

  function Claim(m: seq<Byte>, a: nat, size: nat): (r: seq<Byte>)
    requires a + BLOCK_HEADER <= |m|
    ensures |r| == |m|
  {
    Put(Put(PutWord(m, a, size), a + 8, [BLOCK_MAGIC]), a + 9, [1])
  }

  /** A free header with new size and successor. */
  lemma Rewritten(m: seq<Byte>, a: nat, size: nat, next: nat)
    requires a + BLOCK_HEADER <= |m| && m[a + 8] == BLOCK_MAGIC && size < TWO64 && next < TWO64
    ensures var m' := Rewrite(m, a, size, next);
            Node(m', Block(a, size), next) && HeaderOnly(m, m', a) && m'[a + 9] == m[a + 9]
  {
    PutSize(m, a, size);
    PutNext(PutWord(m, a, size), a, next);
    HeaderTwice(m, PutWord(m, a, size), PutWord(PutWord(m, a, size), a + 16, next), a);
  }

  lemma SplitPlaced(lo: nat, hi: nat, xs: seq<Block>, k: nat, size: nat)
    requires AllPlaced(lo, hi, xs) && k < |xs| && Fits(xs[k], size) && size % MEM_ALIGNMENT == 0
    ensures AllPlaced(lo, hi, SplitFree(xs, k, size))
  {
    CutBlock(xs[k], size);
    var ys := SplitFree(xs, k, size);
    forall i | 0 <= i < |ys| ensures Placed(lo, hi, ys[i]) {
      var o := if Rest(xs[k], size) == [] || i <= k then i else i - 1;
      assert Placed(lo, hi, xs[o]) && Placed(lo, hi, xs[k]);
    }
  }

  /** Taking a block out of the list keeps the rest in order. */
  lemma DropListed(lo: nat, hi: nat, xs: seq<Block>, k: nat)
    requires Pairwise(xs) && AllPlaced(lo, hi, xs) && k < |xs|
    ensures Pairwise(Drop(xs, k)) && AllPlaced(lo, hi, Drop(xs, k))
    ensures forall a :: Covered(Drop(xs, k), a) ==> Covered(xs, a)
  {
    var ys := Drop(xs, k);
    assert forall i :: 0 <= i < |ys| ==> ys[i] == xs[if i < k then i else i + 1];
    forall a | Covered(ys, a) ensures Covered(xs, a) {
      var i :| 0 <= i < |ys| && Covers(ys[i], a);
      assert Covers(xs[if i < k then i else i + 1], a);
    }
  }

  /** Writing the header of a block apart from the list leaves the list alone. */
  lemma ListAside(m: seq<Byte>, m': seq<Byte>, head: nat, xs: seq<Block>, b: Block)
    requires FreeList(m, head, xs) && HeaderOnly(m, m', b.addr) && ApartFrom(b, xs)
    ensures FreeList(m', head, xs)
  {
    hide Node, HeaderOnly;
    forall i | 0 <= i < |xs| ensures Node(m', xs[i], AddrAt(xs, i + 1)) {
      assert Apart(b, xs[i]);
      NodeKept(m, m', b.addr, xs[i], AddrAt(xs, i + 1));
    }
  }

  /** The header of an allocated block after kmalloc's three writes. */
  lemma Claimed(m: seq<Byte>, a: nat, size: nat)
    requires a + BLOCK_HEADER <= |m| && size < TWO64
    ensures var m' := Claim(m, a, size);
            Owned(m', Block(a, size)) && HeaderOnly(m, m', a)
  {
    var m1 := PutWord(m, a, size);
    var m2 := Put(m1, a + 8, [BLOCK_MAGIC]);
    PutSize(m, a, size);
    PutMark(m1, a, 8, BLOCK_MAGIC);
    PutMark(m2, a, 9, 1);
    HeaderTwice(m, m1, m2, a);
    HeaderTwice(m, m2, Put(m2, a + 9, [1]), a);
  }

  /** A fresh free header. */
  lemma Written(m: seq<Byte>, a: nat, size: nat, next: nat)
    requires a + BLOCK_HEADER <= |m| && size < TWO64 && next < TWO64
    ensures var m' := Fresh(m, a, size, next);
            Node(m', Block(a, size), next) && HeaderOnly(m, m', a)
  {
    var m1 := PutWord(m, a, size);
    var m2 := Put(m1, a + 8, [BLOCK_MAGIC]);
    PutSize(m, a, size);
    PutMark(m1, a, 8, BLOCK_MAGIC);
    PutNext(m2, a, next);
    HeaderTwice(m, m1, m2, a);
    HeaderTwice(m, m2, PutWord(m2, a + 16, next), a);
  }

  lemma NothingChanged(m: seq<Byte>, xs: seq<Block>)
    ensures KeptOutside(m, m, xs)
  {
  }

  /** A free header with a new successor. */
  lemma Relinked(m: seq<Byte>, a: nat, size: nat, was: nat, next: nat)
    requires Node(m, Block(a, size), was) && next < TWO64
    ensures a + BLOCK_HEADER <= |m|
    ensures var m' := PutWord(m, a + 16, next); Node(m', Block(a, size), next) && HeaderOnly(m, m', a)
  {
    PutNext(m, a, next);
  }

  /** The five writes of split_block turn the list into the split list. */
  lemma ListSplitWrites(m: seq<Byte>, m1: seq<Byte>, m2: seq<Byte>, head: nat, xs: seq<Block>, k: nat, size: nat)
    requires FreeList(m, head, xs) && Pairwise(xs) && k < |xs| && Fits(xs[k], size) && Rest(xs[k], size) != []
    requires End(xs[k]) <= |m| < TWO64 && AddrAt(xs, k + 1) < TWO64
    requires m1 == Fresh(m, Rest(xs[k], size)[0].addr, Rest(xs[k], size)[0].size, AddrAt(xs, k + 1))
    requires m2 == Rewrite(m1, xs[k].addr, size, Rest(xs[k], size)[0].addr)
    ensures FreeList(m2, head, SplitFree(xs, k, size)) && KeptOutside(m, m2, xs)
  {
    hide Fresh, Rewrite, Word, Pairwise, FreeList, Node;
    var c := Rest(xs[k], size)[0];
    Written(m, c.addr, c.size, AddrAt(xs, k + 1));
    NodeMagic(m, head, xs, k);
    Rewritten(m1, xs[k].addr, size, c.addr);
    ListSplit(m, m1, m2, head, xs, k, size);
    forall i | 0 <= i < |m| && !Covered(xs, i) ensures m2[i] == m[i] {
      assert !Covers(xs[k], i);
    }
  }

  lemma NodeMagic(m: seq<Byte>, head: nat, xs: seq<Block>, k: nat)
    requires FreeList(m, head, xs) && k < |xs|
    ensures xs[k].addr + BLOCK_HEADER <= |m| && m[xs[k].addr + 8] == BLOCK_MAGIC
  {
    assert Node(m, xs[k], AddrAt(xs, k + 1));
  }

  function Zeros(n: nat): (r: seq<Byte>)
    ensures |r| == n && forall i :: 0 <= i < n ==> r[i] == 0
  {
    seq(n, _ => 0)
  }

  lemma ZerosStep(m: seq<Byte>, at: nat, i: nat)
    requires at + i <= |m|
    ensures Put(m, at, Zeros(0)) == m
    ensures at + i < |m| ==> Put(m, at, Zeros(i))[at + i := 0] == Put(m, at, Zeros(i + 1))
  {
  }

  lemma AlignedSize(n: nat)
    requires n <= TWO64 - 8
    ensures n <= AlignUp(n)
  {
  }

  /** How many bytes krealloc carries over. */
  function Kept(live: seq<Block>, ptr: nat, n: nat): (r: nat)
    requires Find(live, ptr).Some?
  {
    var size := live[Find(live, ptr).value].size;
    if size < n then size else n
  }

  lemma MallocFails(h: Heap, n: nat)
    requires n < TWO64 && Malloc(h, n).1 == 0
    ensures Malloc(h, n).0.live == h.live
  {
  }

  lemma GrowFacts(h: Heap, k: nat)
    requires Inv(h) && k < |h.live|
    ensures Pairwise(h.live) && AllPlaced(h.lo, h.hi, h.live) && Cross(h.live, h.free)
    ensures forall j :: 0 <= j < |h.live| ==> ApartFrom(h.live[j], h.free) && End(h.live[j]) <= h.hi
  {
    ApartSymmetric(h.free, h.live);
    assert forall j :: 0 <= j < |h.live| ==> Placed(h.lo, h.hi, h.live[j]);
  }

  /** The new block and the old one do not overlap. */
  lemma GrownApart(h: Heap, k: nat)
    requires Inv(h) && 0 < k < |h.live|
    ensures Cross(h.free, h.live) && Pairwise(h.live) && Apart(h.live[0], h.live[k])
    ensures End(h.live[0]) <= h.hi && End(h.live[k]) <= h.hi
  {
    assert Placed(h.lo, h.hi, h.live[0]) && Placed(h.lo, h.hi, h.live[k]);
  }

  /** Blocks keep their contents while only free memory is written. */
  lemma ContentsKept(h: Heap, m: seq<Byte>, m': seq<Byte>)
    requires Inv(h) && KeptOutside(m, m', h.free) && h.hi <= |m|
    ensures forall j :: 0 <= j < |h.live| ==> End(h.live[j]) <= |m| && Content(m', h.live[j]) == Content(m, h.live[j])
  {
    ApartSymmetric(h.free, h.live);
    forall j | 0 <= j < |h.live| ensures End(h.live[j]) <= |m| && Content(m', h.live[j]) == Content(m, h.live[j]) {
      assert Placed(h.lo, h.hi, h.live[j]) && ApartFrom(h.live[j], h.free);
      ContentKept(m, m', h.free, h.live[j]);
    }
  }

  /** Freeing block `k` leaves the contents of the others. */
  lemma FreedContents(h: Heap, m: seq<Byte>, m': seq<Byte>, k: nat)
    requires Inv(h) && k < |h.live| && KeptOutside(m, m', [h.live[k]] + h.free) && h.hi <= |m|
    ensures forall j :: 0 <= j < |h.live| && j != k ==>
              End(h.live[j]) <= |m| && Content(m', h.live[j]) == Content(m, h.live[j])
  {
    ApartSymmetric(h.free, h.live);
    OthersElsewhere(h.live, k);
    forall j | 0 <= j < |h.live| && j != k
      ensures End(h.live[j]) <= |m| && Content(m', h.live[j]) == Content(m, h.live[j])
    {
      assert Placed(h.lo, h.hi, h.live[j]) && ApartFrom(h.live[j], h.free);
      assert ApartFrom(h.live[j], [h.live[k]] + h.free);
      ContentKept(m, m', [h.live[k]] + h.free, h.live[j]);
    }
  }

  /** The contents after copying into block 0 and freeing block `k`. */
  lemma MovedContents(g: Heap, m1: seq<Byte>, m2: seq<Byte>, m3: seq<Byte>, k: nat)
    requires Inv(g) && 0 < k < |g.live| && g.hi <= |m1| == |m2| == |m3|
    requires KeptOutside(m1, m2, [g.live[0]]) && KeptOutside(m2, m3, [g.live[k]] + g.free)
    ensures forall j :: 0 < j < |g.live| && j != k ==>
              End(g.live[j]) <= |m1| && Content(m3, g.live[j]) == Content(m1, g.live[j])
  {
    hide KeptOutside, Content;
    FreedContents(g, m2, m3, k);
    OthersElsewhere(g.live, 0);
    forall j | 0 < j < |g.live| && j != k
      ensures End(g.live[j]) <= |m1| && Content(m3, g.live[j]) == Content(m1, g.live[j])
    {
      assert Placed(g.lo, g.hi, g.live[j]) && ApartFrom(g.live[j], [g.live[0]]);
      ContentKept(m1, m2, [g.live[0]], g.live[j]);
    }
  }

  lemma CopiedContents(g: Heap, m2: seq<Byte>, m3: seq<Byte>, k: nat, size: nat)
    requires Inv(g) && 0 < k < |g.live| && size <= g.live[0].size && End(g.live[0]) <= |m2|
    requires KeptOutside(m2, m3, [g.live[k]] + g.free)
    ensures var at := g.live[0].addr + HEADER_SIZE; m3[at..at + size] == m2[at..at + size]
  {
    ApartSymmetric(g.free, g.live);
    var nb, xs := g.live[0], [g.live[k]] + g.free;
    assert ApartFrom(nb, g.free) && Apart(nb, g.live[k]);
    assert ApartFrom(nb, xs);
    BlockKept(m2, m3, xs, nb, nb.addr + HEADER_SIZE, nb.addr + HEADER_SIZE + size);
  }

  lemma ContentSlice(m: seq<Byte>, b: Block)
    requires End(b) <= |m|
    ensures Content(m, b) == m[b.addr + HEADER_SIZE..b.addr + HEADER_SIZE + b.size]
  {
  }

  lemma EndsApart(b: Block, c: Block)
    requires Apart(b, c)
    ensures End(b) <= c.addr || End(c) <= b.addr
  {
  }

  lemma AllOwnedCons(m: seq<Byte>, b: Block, ys: seq<Block>)
    requires Owned(m, b) && AllOwned(m, ys)
    ensures AllOwned(m, [b] + ys)
  {
  }

  /** What carving needs to know about the heap. */
  lemma CarveFacts(h: Heap, k: nat, size: nat)
    requires Inv(h) && k < |h.free| && Fits(h.free[k], size)
    ensures ApartFrom(Block(h.free[k].addr, size), CarvedFree(h.free, k, size))
    ensures Cross(h.live, h.free)
  {
    CarvePairwise(h.free, k, size);
    ApartSymmetric(h.free, h.live);
  }

  /** What giving back live block `k` needs to know about the heap. */
  lemma ReleaseFacts(h: Heap, k: nat)
    requires Inv(h) && k < |h.live|
    ensures var xs := [h.live[k]] + h.free;
            && Pairwise(xs) && AllPlaced(h.lo, h.hi, xs) && ApartFrom(h.live[k], h.free) && Cross(Drop(h.live, k), xs)
    ensures Placed(h.lo, h.hi, h.live[k])
  {
    ReturnedApart(h, k);
    ApartSymmetric(Returned(h, k).free, Returned(h, k).live);
    ApartSymmetric(h.free, h.live);
  }

  /** The writes of add_to_free_list. */
  function Push(m: seq<Byte>, a: nat, next: nat): (r: seq<Byte>)
    requires a + BLOCK_HEADER <= |m|
    ensures |r| == |m|
  {
    PutWord(Put(m, a + 8, [BLOCK_MAGIC]), a + 16, next)
  }

  lemma Pushed(m: seq<Byte>, b: Block, next: nat)
    requires b.addr + BLOCK_HEADER <= |m| && Word(m, b.addr) == b.size && next < TWO64
    ensures var m' := Push(m, b.addr, next);
            Node(m', b, next) && HeaderOnly(m, m', b.addr) && m'[b.addr + 9] == m[b.addr + 9]
  {
    var m1 := Put(m, b.addr + 8, [BLOCK_MAGIC]);
    PutMark(m, b.addr, 8, BLOCK_MAGIC);
    PutNext(m1, b.addr, next);
    HeaderTwice(m, m1, PutWord(m1, b.addr + 16, next), b.addr);
  }

  /** A block put in front of the list. */
  lemma ConsListed(lo: nat, hi: nat, b: Block, xs: seq<Block>)
    requires Pairwise(xs) && AllPlaced(lo, hi, xs) && Placed(lo, hi, b) && ApartFrom(b, xs)
    ensures Pairwise([b] + xs) && AllPlaced(lo, hi, [b] + xs)
  {
  }

  lemma AllOwnedDrop(m: seq<Byte>, ys: seq<Block>, k: nat)
    requires AllOwned(m, ys) && k < |ys|
    ensures AllOwned(m, Drop(ys, k))
  {
    assert forall i :: 0 <= i < |Drop(ys, k)| ==> Drop(ys, k)[i] == ys[if i < k then i else i + 1];
  }

  lemma KeptSplit(m0: seq<Byte>, m1: seq<Byte>, m2: seq<Byte>, xs: seq<Block>, k: nat, size: nat)
    requires k < |xs| && Fits(xs[k], size)
    requires KeptOutside(m0, m1, xs) && KeptOutside(m1, m2, SplitFree(xs, k, size))
    ensures KeptOutside(m0, m2, xs)
  {
    forall a | Covered(SplitFree(xs, k, size), a) ensures Covered(xs, a) {
      SplitCovers(xs, k, size, a);
    }
    KeptTwice(m0, m1, m2, xs, SplitFree(xs, k, size));
  }

  lemma KeptHeader(m0: seq<Byte>, m2: seq<Byte>, m3: seq<Byte>, xs: seq<Block>, k: nat)
    requires KeptOutside(m0, m2, xs) && k < |xs| && HeaderOnly(m2, m3, xs[k].addr)
    ensures KeptOutside(m0, m3, xs)
  {
    HeaderWithin(m2, m3, xs, k);
    KeptTwice(m0, m2, m3, xs, xs);
  }

  lemma KeptMerged(m0: seq<Byte>, m1: seq<Byte>, m2: seq<Byte>, xs: seq<Block>, ys: seq<Block>)
    requires KeptOutside(m0, m1, xs) && KeptOutside(m1, m2, ys) && (ys == xs || ys == Merge(xs))
    ensures KeptOutside(m0, m2, xs)
  {
    forall a | Covered(ys, a) ensures Covered(xs, a) {
      MergeCovers(xs, a);
    }
    KeptTwice(m0, m1, m2, xs, ys);
  }

  lemma BestFits(free: seq<Block>, size: nat)
    ensures BestFit(free, size).Some? ==>
              BestFit(free, size).value < |free| && Fits(free[BestFit(free, size).value], size)
  {
  }

  /** ALIGN_UP and ALIGN_DOWN of the heap's ends. */
  function AlignedStart(a: nat): (r: nat)
    ensures a <= r < a + 8 && r % MEM_ALIGNMENT == 0
  {
    (a + 7) / 8 * 8
  }

  function AlignedEnd(a: nat): (r: nat)
    ensures r <= a < r + 8 && r % MEM_ALIGNMENT == 0
  {
    a / 8 * 8
  }

  /** The header memory_init writes. */
  lemma Formatted(m: seq<Byte>, a: nat, size: nat)
    requires a + BLOCK_HEADER <= |m| && size < TWO64
    ensures var m' := Put(PutWord(PutWord(m, a, size), a + 16, 0), a + 8, [BLOCK_MAGIC]);
            FreeList(m', a, [Block(a, size)]) && AllOwned(m', [])
  {
    hide Put, PutWord;
    PutSize(m, a, size);
    PutNext(PutWord(m, a, size), a, 0);
    PutMark(PutWord(PutWord(m, a, size), a + 16, 0), a, 8, BLOCK_MAGIC);
  }

  lemma InitListed(lo: nat, hi: nat)
    requires lo + BLOCK_HEADER <= hi && Inv(Init(lo, hi))
    ensures Pairwise(Init(lo, hi).free) && AllPlaced(lo, hi, Init(lo, hi).free)
  {
  }

  lemma HeaderElsewhere(m: seq<Byte>, m': seq<Byte>, a: nat, i: nat)
    requires HeaderOnly(m, m', a) && i < |m| && (i < a || a + BLOCK_HEADER <= i)
    ensures |m'| == |m| && m'[i] == m[i]
  {
  }

  lemma NodeNext(m: seq<Byte>, b: Block, next: nat)
    requires Node(m, b, next)
    ensures b.addr + BLOCK_HEADER <= |m| && Word(m, b.addr + 16) == next && Word(m, b.addr) == b.size
  {
  }

  /** The best position is unique. */
  lemma BestUnique(free: seq<Block>, size: nat, k: nat)
    requires IsBest(free, size, k)
    ensures BestFit(free, size) == Some(k)
  {
    var j := BestFit(free, size).value;
    assert Fits(free[j], size) && Fits(free[k], size);
  }

  /** The search state after looking at the first `i` blocks. */
  ghost predicate Searched(free: seq<Block>, i: nat, size: nat, best: nat, bestSize: nat, at: nat)
    requires i <= |free|
  {
    if best == 0 then bestSize == TWO64 - 1 && forall j :: 0 <= j < i ==> !Fits(free[j], size)
    else at < i && best == free[at].addr && bestSize == free[at].size && IsBest(free[..i], size, at)
  }

  /** The search state after one more block. */
  lemma SearchNext(free: seq<Block>, i: nat, size: nat, best: nat, bestSize: nat, at: nat)
    requires i < |free| && Searched(free, i, size, best, bestSize, at) && free[i].addr != 0 && free[i].size < TWO64 - 1
    ensures if free[i].size >= size && free[i].size < bestSize
            then Searched(free, i + 1, size, free[i].addr, free[i].size, i)
            else Searched(free, i + 1, size, best, bestSize, at)
  {
    var xs, ys := free[..i], free[..i + 1];
    assert forall j :: 0 <= j < i ==> ys[j] == xs[j];
    assert ys[i] == free[i];
  }

  /** An exact fit ends the search; so does the end of the list. */
  lemma SearchDone(free: seq<Block>, i: nat, size: nat, best: nat, bestSize: nat, at: nat)
    requires i <= |free| && Searched(free, i, size, best, bestSize, at)
    requires i == |free| || (best != 0 && bestSize == size && at == i - 1)
    ensures match BestFit(free, size)
            case None => best == 0
            case Some(k) => at == k && best == free[k].addr && best != 0
  {
    if best != 0 {
      assert forall j :: 0 <= j < i ==> free[..i][j] == free[j];
      assert IsBest(free, size, at);
      BestUnique(free, size, at);
    }
  }

  /** A call on 0 or on a live pointer, with a size that can be aligned upwards. */
  predicate Proper(live: seq<Block>, e: Event) {
    && (e.EMalloc? || e.ptr == 0 || Find(live, e.ptr).Some?)
    && (e.EMalloc? ==> e.n < TWO64) && (e.ERealloc? ==> e.n <= TWO64 - 8)
  }

  predicate ProperRun(h: Heap, es: seq<Event>)
    decreases es
  {
    es == [] || (Proper(h.live, es[0]) && ProperRun(Step(h, es[0]), es[1..]))
  }

  /** The live blocks that none of the events is about have the same contents in `m'` as in `m`. */
  ghost predicate Spared(live: seq<Block>, m: seq<Byte>, m': seq<Byte>, es: seq<Event>) {
    |m| == |m'| &&
    forall j :: 0 <= j < |live| && (forall i :: 0 <= i < |es| ==> !Concerns(es[i], live[j].addr + HEADER_SIZE)) ==>
      End(live[j]) <= |m| && Content(m', live[j]) == Content(m, live[j])
  }

  lemma FreeSpares(h: Heap, m: seq<Byte>, m': seq<Byte>, ptr: nat)
    requires Inv(h) && h.hi <= |m| == |m'|
    requires match Find(h.live, ptr)
             case None => m' == m
             case Some(k) => KeptOutside(m, m', [h.live[k]] + h.free)
    ensures Spared(h.live, m, m', [EFree(ptr)])
  {
    hide KeptOutside, Content;
    SparedNone(h, m);
    if Find(h.live, ptr).Some? {
      FreedContents(h, m, m', Find(h.live, ptr).value);
    }
    SparedBy(h.live, m, m', EFree(ptr));
  }

  lemma SparedNone(h: Heap, m: seq<Byte>)
    requires Inv(h) && h.hi <= |m|
    ensures forall j :: 0 <= j < |h.live| ==> End(h.live[j]) <= |m|
    ensures Spared(h.live, m, m, [])
  {
    assert forall j :: 0 <= j < |h.live| ==> Placed(h.lo, h.hi, h.live[j]);
  }

  lemma SparedBy(live: seq<Block>, m: seq<Byte>, m': seq<Byte>, e: Event)
    requires |m| == |m'|
    requires forall j :: 0 <= j < |live| && !Concerns(e, live[j].addr + HEADER_SIZE) ==>
               End(live[j]) <= |m| && Content(m', live[j]) == Content(m, live[j])
    ensures Spared(live, m, m', [e])
  {
    assert [e][0] == e;
  }

  lemma SparedTwice(h: Heap, m: seq<Byte>, m1: seq<Byte>, m2: seq<Byte>, es: seq<Event>)
    requires es != [] && Legal(es[0])
    requires Spared(h.live, m, m1, [es[0]]) && Spared(Step(h, es[0]).live, m1, m2, es[1..])
    ensures Spared(h.live, m, m2, es)
  {
    hide Content, Step;
    forall j | 0 <= j < |h.live| && (forall i :: 0 <= i < |es| ==> !Concerns(es[i], h.live[j].addr + HEADER_SIZE))
      ensures End(h.live[j]) <= |m| && Content(m2, h.live[j]) == Content(m, h.live[j])
    {
      var b := h.live[j];
      assert !Concerns(es[0], b.addr + HEADER_SIZE);
      assert forall i :: 0 <= i < |es[1..]| ==> es[1..][i] == es[i + 1];
      LiveUntilFreed(h, [es[0]], b);
      OneStep(h, es[0]);
      var k :| 0 <= k < |Step(h, es[0]).live| && Step(h, es[0]).live[k] == b;
    }
  }

  lemma OneStep(h: Heap, e: Event)
    requires Legal(e)
    ensures Run(h, [e]) == Step(h, e)
  {
    hide Step;
    assert [e][1..] == [];
  }

  class Manager {
    const mem: array<Byte>
    var freeList: nat
    var heapStart: nat
    var heapEnd: nat
    var freeMem: int
    var usedMem: int
    var allocs: nat
    var frees: nat
    ghost var free: seq<Block>
    ghost var live: seq<Block>
    ghost var lost: nat

    ghost function Abs(): (h: Heap)
      reads this
    {
      Heap(heapStart, heapEnd, free, live, freeMem, usedMem, allocs, frees, lost)
    }

    /** The free list is threaded through memory; blocks lie in the heap, apart. */
    ghost predicate Listed()
      reads this, mem
    {
      && 0 < heapStart && heapEnd + BLOCK_HEADER <= mem.Length < TWO64
      && FreeList(mem[..], freeList, free)
      && Pairwise(free) && AllPlaced(heapStart, heapEnd, free)
    }

    ghost predicate Valid()
      reads this, mem
    {
      Listed() && AllOwned(mem[..], live) && Inv(Abs())
    }

    // ----- memory access ---------------------------------------------------------

    method WriteWord(a: nat, v: nat)
      requires a + 8 <= mem.Length
      modifies mem
      ensures mem[..] == PutWord(old(mem[..]), a, v)
    {
      var rest := v;
      var i := 0;
      while i < 8
        invariant 0 <= i <= 8
        invariant Encode(v, 8)[i..] == Encode(rest, 8 - i)
        invariant mem[..] == old(mem[..])[..a] + Encode(v, 8)[..i] + old(mem[..])[a + i..]
      {
        assert Encode(v, 8)[i] == rest % 256;
        assert Encode(v, 8)[i + 1..] == Encode(v, 8)[i..][1..];
        mem[a + i] := rest % 256;
        rest := rest / 256;
        i := i + 1;
      }
    }

    method WriteByte(a: nat, v: Byte)
      requires a < mem.Length
      modifies mem
      ensures mem[..] == Put(old(mem[..]), a, [v])
    {
      mem[a] := v;
    }

    // ----- find_best_fit --------------------------------------------------------------

    method FindBestFit(size: nat) returns (best: nat, ghost at: nat)
      requires Listed()
      ensures best == 0 <==> BestFit(free, size).None?
      ensures best != 0 ==> at == BestFit(free, size).value && best == free[at].addr
    {
      hide IsBest, Pairwise, AllPlaced, FreeList;
      var curr := freeList;
      var bestSize: nat := TWO64 - 1;
      best, at := 0, 0;
      ghost var i := 0;
      ListEnds();
      while curr != 0
        invariant 0 <= i <= |free| && curr == AddrAt(free, i)
        invariant Searched(free, i, size, best, bestSize, at)
        decreases |free| - i
      {
        ListEntry(i);
        SearchNext(free, i, size, best, bestSize, at);
        var currSize := Word(mem[..], curr);
        if currSize >= size && currSize < bestSize {
          best, bestSize, at := curr, currSize, i;
          if currSize == size {
            SearchDone(free, i + 1, size, best, bestSize, at);
            return;
          }
        }
        curr := Word(mem[..], curr + 16);
        i := i + 1;
      }
      ListEnd(i);
      SearchDone(free, i, size, best, bestSize, at);
    }

    /** What a walk along the list finds at position `i`. */
    lemma ListEntry(i: nat)
      requires Listed() && i < |free|
      ensures free[i].addr != 0 && free[i].addr + BLOCK_HEADER <= heapEnd && free[i].size < TWO64 - BLOCK_HEADER
      ensures Word(mem[..], free[i].addr) == free[i].size
      ensures Word(mem[..], free[i].addr + 16) == AddrAt(free, i + 1) && mem[free[i].addr + 8] == BLOCK_MAGIC
      ensures Node(mem[..], free[i], AddrAt(free, i + 1)) && Placed(heapStart, heapEnd, free[i])
    {
      assert Node(mem[..], free[i], AddrAt(free, i + 1)) && Placed(heapStart, heapEnd, free[i]);
    }

    lemma ListEnds()
      requires Listed()
      ensures freeList == AddrAt(free, 0)
    {
    }

    lemma ListEnd(i: nat)
      requires Listed() && i <= |free| && AddrAt(free, i) == 0
      ensures i == |free|
    {
      if i < |free| { ListEntry(i); }
    }

    // ----- coalesce_blocks -----------------------------------------------------------------

    /** One merge: block `k` swallows its list successor. */
    method JoinAt(ghost k: nat, curr: nat)
      requires Listed() && k + 1 < |free| && curr == free[k].addr && End(free[k]) == free[k + 1].addr
      modifies mem, `free
      ensures Listed() && free == old(free)[..k] + [Joined(old(free)[k], old(free)[k + 1])] + old(free)[k + 2..]
      ensures HeaderOnly(old(mem[..]), mem[..], curr) && mem[curr + 9] == old(mem[curr + 9])
    {
      hide FreeList, Pairwise, AllPlaced, Node, HeaderOnly, PutWord, Put, Word, Merge, Covered;
      ListEntry(k);
      ListEntry(k + 1);
      NextSmall(k + 1);
      JoinStep(free, k);
      JoinPlaced(heapStart, heapEnd, free, k);
      ghost var m := mem[..];
      ghost var b := Joined(free[k], free[k + 1]);
      var next := Word(mem[..], curr + 16);
      Rewritten(m, curr, b.size, AddrAt(free, k + 2));
      PutSize(m, curr, b.size);
      NodeKept(m, PutWord(m, curr, b.size), curr, free[k + 1], AddrAt(free, k + 2));
      NodeNext(PutWord(m, curr, b.size), free[k + 1], AddrAt(free, k + 2));
      WriteWord(curr, Word(mem[..], curr) + BLOCK_HEADER + Word(mem[..], next));
      WriteWord(curr + 16, Word(mem[..], next + 16));
      ListJoin(m, mem[..], freeList, free, k);
      free := free[..k] + [b] + free[k + 2..];
    }

    /** Distinct positions have distinct addresses. */
    lemma HeadersDiffer(i: nat, k: nat)
      requires Listed() && i < |free| && k < |free|
      ensures free[i].addr == free[k].addr <==> i == k
    {
      if i != k { HeadersApart(free, i, k); }
    }

    lemma HeadOnce(k: nat)
      requires Listed() && k < |free| && free[k].addr == freeList
      ensures k == 0
    {
      HeadersDiffer(0, k);
    }

    /** List addresses are 64-bit words. */
    lemma NextSmall(i: nat)
      requires Listed()
      ensures AddrAt(free, i) < TWO64 && AddrAt(free, i + 1) < TWO64
    {
      if i < |free| { ListEntry(i); }
      if i + 1 < |free| { ListEntry(i + 1); }
    }

    method CoalesceBlocks()
      requires Listed()
      modifies mem, `free, `freeMem
      ensures Listed() && free == Merge(old(free))
      ensures freeMem == old(freeMem) + BLOCK_HEADER * (|old(free)| - |free|)
      ensures KeptOutside(old(mem[..]), mem[..], old(free))
      ensures old(free) != [] ==> mem[old(free)[0].addr + 9] == old(mem[free[0].addr + 9])
    {
      hide FreeList, Pairwise, AllPlaced, SameCover, Merge, HeaderOnly, KeptOutside, Node, Word;
      NothingChanged(mem[..], free);
      CoverItself(free);
      ghost var was, m := free, mem[..];
      if free != [] { ListEntry(0); }
      var curr := freeList;
      ghost var k := 0;
      ListEnds();
      assert free[..0] + Merge(free[0..]) == Merge(was);
      while curr != 0
        invariant Listed() && 0 <= k <= |free| && curr == AddrAt(free, k)
        invariant Merge(was) == free[..k] + Merge(free[k..])
        invariant SameCover(free, was) && KeptOutside(m, mem[..], was)
        invariant free == [] <==> was == []
        invariant was != [] ==> free[0].addr == was[0].addr && mem[was[0].addr + 9] == m[was[0].addr + 9]
        invariant freeMem == old(freeMem) + BLOCK_HEADER * (|was| - |free|)
        decreases |free| - k
      {
        ListEntry(k);
        var next := Word(mem[..], curr + 16);
        if next != 0 && curr + BLOCK_HEADER + Word(mem[..], curr) == next {
          JoinStep(free, k);
          ghost var before, xs := mem[..], free;
          ListEntry(0);
          JoinAt(k, curr);
          JoinEffects(m, before, mem[..], was, xs, k);
          assert mem[..][was[0].addr + 9] == before[was[0].addr + 9];
          freeMem := freeMem + BLOCK_HEADER;
        } else {
          MergeSkips(free, k);
          curr := next;
          k := k + 1;
        }
      }
      ListEnd(k);
      assert free[..k] == free && Merge(free[k..]) == [];
    }

    // ----- split_block and remove_from_free_list -----------------------------------------------

    method SplitBlock(ghost k: nat, block: nat, size: nat)
      requires Listed() && k < |free| && block == free[k].addr && Fits(free[k], size) && size % MEM_ALIGNMENT == 0
      modifies mem, `free, `freeMem
      ensures Listed() && free == SplitFree(old(free), k, size)
      ensures freeMem == old(freeMem) - BLOCK_HEADER * |Rest(old(free)[k], size)|
      ensures KeptOutside(old(mem[..]), mem[..], old(free))
    {
      hide FreeList, Pairwise, AllPlaced, Node, HeaderOnly, PutWord, Put, Word, Covered, KeptOutside;
      ListEntry(k);
      NextSmall(k);
      SplitApart(free, k, size);
      SplitPlaced(heapStart, heapEnd, free, k, size);
      NothingChanged(mem[..], free);
      var remaining: int := Word(mem[..], block) - size - BLOCK_HEADER;
      if remaining < MIN_BLOCK_SIZE {
        return;
      }
      var newBlock := block + BLOCK_HEADER + size;
      var next := Word(mem[..], block + 16);
      ghost var m, xs, c := mem[..], free, Rest(free[k], size)[0];
      WriteWord(newBlock, remaining);
      WriteByte(newBlock + 8, BLOCK_MAGIC);
      WriteWord(newBlock + 16, next);
      ghost var m1 := mem[..];
      WriteWord(block, size);
      WriteWord(block + 16, newBlock);
      ListSplitWrites(m, m1, mem[..], freeList, xs, k, size);
      freeMem := freeMem - BLOCK_HEADER;
      free := SplitFree(xs, k, size);
    }

    method RemoveFromFreeList(ghost k: nat, block: nat)
      requires Listed() && k < |free| && block == free[k].addr
      modifies mem, `free, `freeList
      ensures Listed() && free == Drop(old(free), k)
      ensures KeptOutside(old(mem[..]), mem[..], old(free))
    {
      hide FreeList, Pairwise, AllPlaced, Node, HeaderOnly, PutWord, Put, Word, Covered, KeptOutside;
      ListEntry(k);
      ListEnds();
      DropListed(heapStart, heapEnd, free, k);
      NothingChanged(mem[..], free);
      if freeList == block {
        HeadOnce(k);
        ListUnlinkHead(mem[..], freeList, free);
        freeList := Word(mem[..], block + 16);
        free := Drop(free, k);
        return;
      }
      ghost var xs, m := free, mem[..];
      var curr := freeList;
      ghost var i := 0;
      ListEntry(0);
      while curr != 0 && Word(mem[..], curr + 16) != block
        invariant Listed() && free == xs && mem[..] == m && freeList == xs[0].addr
        invariant 0 <= i < k && curr == AddrAt(free, i) && curr + BLOCK_HEADER <= mem.Length
        decreases |free| - i
      {
        ListEntry(i);
        ListEntry(i + 1);
        curr := Word(mem[..], curr + 16);
        i := i + 1;
      }
      ListEntry(i);
      HeadersDiffer(i + 1, k);
      NextSmall(k);
      Relinked(m, curr, free[i].size, block, AddrAt(free, k + 1));
      WriteWord(curr + 16, Word(mem[..], block + 16));
      ListUnlink(m, mem[..], freeList, free, k);
      HeaderWithin(m, mem[..], free, i);
      free := Drop(free, k);
    }

    // ----- kmalloc ----------------------------------------------------------------------------

    /** The header writes of kmalloc. */
    method WriteClaim(block: nat, size: nat)
      requires block + BLOCK_HEADER <= mem.Length
      modifies mem
      ensures mem[..] == Claim(old(mem[..]), block, size)
    {
      WriteWord(block, size);
      WriteByte(block + 8, BLOCK_MAGIC);
      WriteByte(block + 9, 1);
    }

    /** From the chosen block to the allocated one: split, unlink, write the header, count. */
    method Allocate(ghost k: nat, block: nat, size: nat)
      requires Valid() && k < |free| && block == free[k].addr && Fits(free[k], size)
      requires size % MEM_ALIGNMENT == 0
      modifies this, mem
      ensures Valid() && Abs() == Carve(old(Abs()), k, size)
      ensures KeptOutside(old(mem[..]), mem[..], old(free))
    {
      hide FreeList, Pairwise, AllPlaced, AllOwned, Inv, Claim, Word, Covered, KeptOutside, HeaderOnly, Owned,
          ApartFrom, Cross, SplitFree, Node, Drop;
      ghost var h, m0, xs := Abs(), mem[..], free;
      InvCarve(h, k, size);
      CarveFacts(h, k, size);
      ListEntry(k);
      SplitApart(xs, k, size);
      SplitBlock(k, block, size);
      ghost var m1 := mem[..];
      RemoveFromFreeList(k, block);
      ghost var m2 := mem[..];
      KeptSplit(m0, m1, m2, xs, k, size);
      Claimed(m2, block, size);
      WriteClaim(block, size);
      KeptHeader(m0, m2, mem[..], xs, k);
      ListAside(m2, mem[..], freeList, free, Block(block, size));
      AllOwnedKept(m0, mem[..], xs, live);
      live := [Block(block, size)] + live;
      AllOwnedCons(mem[..], Block(block, size), live[1..]);
      usedMem := usedMem + size + HEADER_SIZE;
      freeMem := freeMem - (size + HEADER_SIZE);
      allocs := allocs + 1;
      lost := lost + if Rest(xs[k], size) == [] then xs[k].size - size else 0;
    }

    /** kmalloc */
    method Kmalloc(n: nat) returns (ptr: nat)
      requires Valid() && n < TWO64
      modifies this, mem
      ensures Valid() && Abs() == Malloc(old(Abs()), n).0 && ptr == Malloc(old(Abs()), n).1
      ensures KeptOutside(old(mem[..]), mem[..], old(free))
    {
      hide FreeList, Pairwise, AllPlaced, AllOwned, Covered, KeptOutside, Carve, IsBest, Merge;
      ghost var m, xs := mem[..], free;
      NothingChanged(m, xs);
      if n == 0 {
        return 0;
      }
      var size := AlignUp(n);
      var block; ghost var k;
      block, k := FindBestFit(size);
      if block == 0 {
        InvCoalesce(Abs());
        CoalesceKeepsOwned();
        CoalesceBlocks();
        AllOwnedKept(m, mem[..], xs, live);
        assert Abs() == Coalesce(old(Abs()));
        block, k := FindBestFit(size);
        if block == 0 {
          return 0;
        }
      }
      ghost var m1, ys := mem[..], free;
      BestFits(free, size);
      Allocate(k, block, size);
      KeptMerged(m, m1, mem[..], xs, ys);
      ptr := block + HEADER_SIZE;
    }

    /** Coalescing stays clear of the live blocks. */
    lemma CoalesceKeepsOwned()
      requires Valid()
      ensures Cross(live, free)
    {
      ApartSymmetric(free, live);
    }

    // ----- kfree ------------------------------------------------------------------------------

    /** The checks of kfree: inside the heap, right magic, marked used. */
    predicate Accepts(ptr: nat)
      requires heapEnd + BLOCK_HEADER <= mem.Length
      reads this, mem
    {
      && ptr != 0 && heapStart <= ptr - HEADER_SIZE < heapEnd
      && mem[ptr - HEADER_SIZE + 8] == BLOCK_MAGIC && mem[ptr - HEADER_SIZE + 9] != 0
    }

    /** Live pointers pass the checks. */
    lemma LiveAccepted(k: nat)
      requires Valid() && k < |live|
      ensures Accepts(live[k].addr + HEADER_SIZE) && Placed(heapStart, heapEnd, live[k])
      ensures Word(mem[..], live[k].addr) == live[k].size
    {
      assert Owned(mem[..], live[k]) && Placed(heapStart, heapEnd, live[k]);
    }

    /**
     * kfree.  Afterwards the pointer fails the checks, so freeing it again at once
     * changes nothing.  The checks cannot tell a forged header from a real one: the caller
     * must not pass a pointer that passes them without being live.
     */
    method Kfree(ptr: nat)
      requires Valid() && (Accepts(ptr) ==> Find(live, ptr).Some?)
      modifies this, mem
      ensures Valid() && Abs() == Free(old(Abs()), ptr)
      ensures !old(Accepts(ptr)) ==> mem[..] == old(mem[..])
      ensures !Accepts(ptr)
      ensures match Find(old(live), ptr)
              case None => mem[..] == old(mem[..])
              case Some(k) => KeptOutside(old(mem[..]), mem[..], [old(live)[k]] + old(free))
    {
      hide FreeList, Pairwise, AllPlaced, AllOwned, Inv, Covered, KeptOutside, Word;
      if Find(live, ptr).Some? {
        LiveAccepted(Find(live, ptr).value);
      }
      if ptr == 0 {
        return;
      }
      var block: int := ptr - HEADER_SIZE;
      if block < heapStart || block >= heapEnd {
        return;
      }
      if mem[block + 8] != BLOCK_MAGIC {
        return;
      }
      if mem[block + 9] == 0 {
        return;
      }
      GiveBack(Find(live, ptr).value, block);
    }

    /** add_to_free_list */
    method AddToFreeList(ghost b: Block, block: nat)
      requires Listed() && block == b.addr && Placed(heapStart, heapEnd, b) && ApartFrom(b, free)
      requires Word(mem[..], block) == b.size
      modifies mem, `free, `freeList
      ensures Listed() && free == [b] + old(free)
      ensures HeaderOnly(old(mem[..]), mem[..], block) && Word(mem[..], block) == b.size
      ensures mem[block + 9] == old(mem[block + 9])
    {
      hide FreeList, Pairwise, AllPlaced, Node, HeaderOnly, ApartFrom, Word;
      ghost var m := mem[..];
      ListEnds();
      NextSmall(0);
      Pushed(m, b, freeList);
      WriteByte(block + 8, BLOCK_MAGIC);
      WriteWord(block + 16, freeList);
      ListPush(m, mem[..], freeList, free, b);
      NodeNext(mem[..], b, freeList);
      ConsListed(heapStart, heapEnd, b, free);
      freeList := block;
      free := [b] + free;
    }

    /** The part of kfree behind the checks. */
    method GiveBack(ghost k: nat, block: nat)
      requires Valid() && k < |live| && block == live[k].addr
      modifies this, mem
      ensures Valid() && Abs() == Release(old(Abs()), k)
      ensures KeptOutside(old(mem[..]), mem[..], [old(live)[k]] + old(free))
      ensures mem[block + 9] == 0
    {
      hide FreeList, Pairwise, AllPlaced, AllOwned, Inv, Covered, KeptOutside, HeaderOnly, Owned, ApartFrom, Cross,
          Word, Merge, Node, Put, Drop;
      ghost var h, m0, b := Abs(), mem[..], live[k];
      InvRelease(h, k);
      LiveAccepted(k);
      ReleaseFacts(h, k);
      ghost var xs, rest := [b] + free, Drop(live, k);
      PutMark(m0, block, 9, 0);
      WriteByte(block + 9, 0);
      ghost var m1 := mem[..];
      ListAside(m0, m1, freeList, free, b);
      AddToFreeList(b, block);
      ghost var m2 := mem[..];
      HeaderTwice(m0, m1, m2, block);
      HeaderWithin(m0, m2, xs, 0);
      usedMem := usedMem - (Word(mem[..], block) + HEADER_SIZE);
      freeMem := freeMem + (Word(mem[..], block) + HEADER_SIZE);
      frees := frees + 1;
      live := rest;
      CoalesceBlocks();
      KeptTwice(m0, m2, mem[..], xs, xs);
      AllOwnedDrop(m0, h.live, k);
      AllOwnedKept(m0, mem[..], xs, live);
    }

    // ----- kcalloc and krealloc -------------------------------------------------------------

    /** memset to zero */
    method Clear(at: nat, n: nat)
      requires at + n <= mem.Length
      modifies mem
      ensures mem[..] == Put(old(mem[..]), at, Zeros(n))
    {
      hide Put, Zeros;
      ghost var m := mem[..];
      ZerosStep(m, at, 0);
      var i := 0;
      while i < n
        invariant 0 <= i <= n
        invariant mem[..] == Put(m, at, Zeros(i))
      {
        ZerosStep(m, at, i);
        mem[at + i] := 0;
        i := i + 1;
      }
    }

    /** memcpy between ranges that do not overlap */
    method Copy(dst: nat, src: nat, n: nat)
      requires dst + n <= mem.Length && src + n <= mem.Length && (dst + n <= src || src + n <= dst)
      modifies mem
      ensures mem[..] == Put(old(mem[..]), dst, old(mem[..])[src..src + n])
    {
      hide Put;
      ghost var m := mem[..];
      PutNothing(m, dst);
      var i := 0;
      assert m[src..src + 0] == [];
      while i < n
        invariant 0 <= i <= n
        invariant mem[..] == Put(m, dst, m[src..src + i])
      {
        CopyStep(m, dst, src, i, n);
        mem[dst + i] := mem[src + i];
        i := i + 1;
      }
    }

    /** What holds of the block just handed out. */
    lemma NewBlock(h: Heap, m: seq<Byte>, n: nat, ptr: nat)
      requires Valid() && n < TWO64 && Inv(h) && Abs() == Malloc(h, n).0 && ptr == Malloc(h, n).1 != 0
      requires KeptOutside(m, mem[..], h.free) && AllOwned(m, h.live)
      ensures live == [Block(ptr - HEADER_SIZE, AlignUp(n))] + h.live && ptr >= HEADER_SIZE
      ensures End(live[0]) <= mem.Length
      ensures forall a :: Covered([live[0]], a) ==> Covered(h.free, a)
    {
      MallocWithin(h, n);
      assert Placed(heapStart, heapEnd, live[0]);
      forall a | Covered([live[0]], a) ensures Covered(h.free, a) {
        assert Covers(live[0], a);
      }
    }

    /** kcalloc; its product of sizes is a 64-bit one. */
    method Kcalloc(num: nat, size: nat) returns (ptr: nat)
      requires Valid() && num < TWO64 && size < TWO64 && num * size % TWO64 <= TWO64 - 8
      modifies this, mem
      ensures Valid()
      ensures Abs() == Malloc(old(Abs()), num * size % TWO64).0 && ptr == Malloc(old(Abs()), num * size % TWO64).1
      ensures ptr != 0 ==> ptr + num * size % TWO64 <= mem.Length
      ensures ptr != 0 ==> forall i :: ptr <= i < ptr + num * size % TWO64 ==> mem[i] == 0
      ensures KeptOutside(old(mem[..]), mem[..], old(free))
    {
      hide FreeList, Pairwise, AllPlaced, AllOwned, Covered, KeptOutside, Malloc, AlignUp;
      ghost var h, m := Abs(), mem[..];
      var total := num * size % TWO64;
      ptr := Kmalloc(total);
      if ptr != 0 {
        NewBlock(h, m, total, ptr);
        AlignedSize(total);
        ghost var m1 := mem[..];
        UserWrite(m1, freeList, free, live, 0, ptr, Zeros(total));
        Clear(ptr, total);
        PutInside(m1, ptr, Zeros(total));
        assert forall i :: ptr <= i < ptr + total ==> mem[i] == mem[..][ptr..ptr + total][i - ptr];
        KeptTwice(m, m1, mem[..], h.free, [live[0]]);
      }
    }

    /** Copies the contents of live block `k` into the first live block. */
    method CopyContent(ghost k: nat, ptr: nat, p: nat, size: nat)
      requires Valid() && 0 < k < |live| && ptr == live[k].addr + HEADER_SIZE && p == live[0].addr + HEADER_SIZE
      requires size == live[k].size <= live[0].size
      modifies mem
      ensures Valid() && End(live[0]) <= mem.Length && End(live[k]) <= mem.Length
      ensures mem[..][p..p + size] == Content(old(mem[..]), live[k])
      ensures KeptOutside(old(mem[..]), mem[..], [live[0]])
    {
      hide FreeList, Pairwise, AllPlaced, AllOwned, Covered, KeptOutside, Put, ApartFrom, Inv, Word, Cross, Content,
          Apart;
      ghost var m := mem[..];
      GrownApart(Abs(), k);
      EndsApart(live[0], live[k]);
      ContentSlice(m, live[k]);
      UserWrite(m, freeList, free, live, 0, p, m[ptr..ptr + size]);
      PutInside(m, p, m[ptr..ptr + size]);
      Copy(p, ptr, size);
    }

    /** krealloc's last steps: copy into the new block, the first live one, and free the old one. */
    method MoveInto(ghost k: nat, ptr: nat, p: nat)
      requires Valid() && 0 < k < |live| && ptr == live[k].addr + HEADER_SIZE && p == live[0].addr + HEADER_SIZE
      requires live[k].size <= live[0].size
      modifies this, mem
      ensures Valid() && Abs() == Free(old(Abs()), ptr)
      ensures p + old(live)[k].size <= mem.Length && End(old(live)[k]) <= mem.Length
      ensures mem[..][p..p + old(live)[k].size] == Content(old(mem[..]), old(live)[k])
      ensures forall j :: 0 < j < |old(live)| && j != k ==>
                End(old(live)[j]) <= mem.Length && Content(mem[..], old(live)[j]) == Content(old(mem[..]), old(live)[j])
    {
      hide FreeList, Pairwise, AllPlaced, AllOwned, Covered, KeptOutside, Free, ApartFrom, Inv, Word, Cross, Find,
          Content, Apart;
      ghost var g, m1 := Abs(), mem[..];
      LiveAccepted(k);
      var size := Word(mem[..], ptr - HEADER_SIZE);
      CopyContent(k, ptr, p, size);
      ghost var m2 := mem[..];
      LiveAccepted(k);
      GrownApart(g, k);
      FindAt(live, k);
      Kfree(ptr);
      MovedContents(g, m1, m2, mem[..], k);
      CopiedContents(g, m2, mem[..], k, size);
    }

    /** krealloc's slow path: a larger block, a copy, and the old block freed. */
    method Grow(ghost k: nat, ptr: nat, n: nat) returns (p: nat)
      requires Valid() && k < |live| && ptr == live[k].addr + HEADER_SIZE && live[k].size < n <= TWO64 - 8
      modifies this, mem
      ensures Valid()
      ensures p == Malloc(old(Abs()), n).1
      ensures Abs() == if p == 0 then Malloc(old(Abs()), n).0 else Free(Malloc(old(Abs()), n).0, ptr)
      ensures p == 0 ==> KeptOutside(old(mem[..]), mem[..], old(free))
      ensures p != 0 ==> p + old(live)[k].size <= mem.Length && End(old(live)[k]) <= mem.Length
      ensures p != 0 ==> mem[..][p..p + old(live)[k].size] == Content(old(mem[..]), old(live)[k])
      ensures p != 0 ==> forall j :: 0 <= j < |old(live)| && j != k ==>
                End(old(live)[j]) <= mem.Length && Content(mem[..], old(live)[j]) == Content(old(mem[..]), old(live)[j])
    {
      hide FreeList, Pairwise, AllPlaced, AllOwned, Covered, KeptOutside, Malloc, Free, AlignUp, ApartFrom, Inv,
          Word, Content, Cross;
      ghost var h, m0 := Abs(), mem[..];
      AllInside();
      p := Kmalloc(n);
      if p == 0 {
        return;
      }
      NewBlock(h, m0, n, p);
      AlignedSize(n);
      ContentsKept(h, m0, mem[..]);
      assert forall j :: 0 <= j < |h.live| ==> live[j + 1] == h.live[j];
      MoveInto(k + 1, ptr, p);
    }

    /**
     * krealloc on 0 or a live pointer.  The contents survive up to the smaller
     * size, a failed call leaves the old block alone, and the bytes of the other
     * live blocks stay as they are.
     */
    method Krealloc(ptr: nat, n: nat) returns (r: nat)
      requires Valid() && n <= TWO64 - 8 && (ptr != 0 ==> Find(live, ptr).Some?)
      modifies this, mem
      ensures Valid() && Abs() == Realloc(old(Abs()), ptr, n).0 && r == Realloc(old(Abs()), ptr, n).1
      ensures ptr != 0 && r != 0 ==>
                var kept := Kept(old(live), ptr, n);
                r + kept <= mem.Length && ptr + kept <= mem.Length &&
                mem[..][r..r + kept] == old(mem[..])[ptr..ptr + kept]
      ensures r == 0 && n != 0 ==> live == old(live)
      ensures ptr != 0 && 0 < n <= old(live)[Find(old(live), ptr).value].size ==> mem[..] == old(mem[..])
      ensures forall j :: 0 <= j < |old(live)| && (old(live)[j].addr + HEADER_SIZE != ptr || (r == 0 && n != 0)) ==>
                End(old(live)[j]) <= mem.Length && Content(mem[..], old(live)[j]) == Content(old(mem[..]), old(live)[j])
    {
      hide FreeList, Pairwise, AllPlaced, AllOwned, Covered, KeptOutside, Malloc, Release, AlignUp, ApartFrom, Inv,
          Word, Find, Content, Apart;
      ghost var h, m := Abs(), mem[..];
      if ptr == 0 {
        r := Kmalloc(n);
        ContentsKept(h, m, mem[..]);
        if r == 0 { MallocFails(h, n); }
        return;
      }
      ghost var k := Find(live, ptr).value;
      LiveAccepted(k);
      GrowFacts(h, k);
      FindAt(live, k);
      OthersElsewhere(live, k);
      if n == 0 {
        Kfree(ptr);
        FreedContents(h, m, mem[..], k);
        return 0;
      }
      AllInside();
      ContentSlice(m, live[k]);
      if Word(mem[..], ptr - HEADER_SIZE) >= n {
        AllInside();
        return ptr;
      }
      r := Grow(k, ptr, n);
      if r == 0 {
        ContentsKept(h, m, mem[..]);
        MallocFails(h, n);
      }
    }

    lemma AllInside()
      requires Valid()
      ensures forall j :: 0 <= j < |live| ==> End(live[j]) <= mem.Length
    {
      assert forall j :: 0 <= j < |live| ==> Placed(heapStart, heapEnd, live[j]);
    }

    // ----- whole runs -------------------------------------------------------------------------

    /**
     * A call on 0 or a live pointer, or kfree of a pointer its checks reject, is one
     * step of the heap model and spares the contents of the other live blocks.
     */
    method Apply(e: Event)
      requires Valid() && (Proper(live, e) || (e.EFree? && !Accepts(e.ptr)))
      modifies this, mem
      ensures Valid() && Abs() == Step(old(Abs()), e)
      ensures Spared(old(live), old(mem[..]), mem[..], [e])
    {
      hide Inv, AllOwned, Listed, KeptOutside, Malloc, Free, Realloc, Content, Find;
      ghost var h, m := Abs(), mem[..];
      NullRejected();
      if e.EMalloc? {
        var _ := Kmalloc(e.n);
        ContentsKept(h, m, mem[..]);
        SparedBy(h.live, m, mem[..], e);
      } else if e.EFree? {
        Kfree(e.ptr);
        FreeSpares(h, m, mem[..], e.ptr);
      } else {
        var _ := Krealloc(e.ptr, e.n);
        SparedBy(h.live, m, mem[..], e);
      }
    }

    lemma NullRejected()
      requires Valid()
      ensures heapEnd + BLOCK_HEADER <= mem.Length && !Accepts(0)
    {
    }

    /** A run of calls: a live block that no call is about keeps its contents to the end. */
    method ApplyAll(es: seq<Event>)
      requires Valid() && ProperRun(Abs(), es)
      modifies this, mem
      ensures Valid() && AllLegal(es) && Abs() == Run(old(Abs()), es)
      ensures Spared(old(live), old(mem[..]), mem[..], es)
      decreases es
    {
      hide Inv, AllOwned, Listed, Step, Content;
      ghost var h, m := Abs(), mem[..];
      NullRejected();
      if es == [] {
        SparedNone(h, m);
      } else {
        Apply(es[0]);
        ghost var m1 := mem[..];
        ApplyAll(es[1..]);
        SparedTwice(h, m, m1, mem[..], es);
      }
    }

    // ----- memory_init -----------------------------------------------------------------------

    /** memory_init: both ends are aligned inwards, one free block spans the heap. */
    constructor (memory: array<Byte>, memStart: nat, memEnd: nat)
      requires 0 < memStart && AlignedStart(memStart) + BLOCK_HEADER <= AlignedEnd(memEnd)
      requires AlignedEnd(memEnd) + BLOCK_HEADER <= memory.Length < TWO64
      modifies memory
      ensures mem == memory && Valid()
      ensures Abs() == Init(AlignedStart(memStart), AlignedEnd(memEnd))
    {
      mem := memory;
      heapStart, heapEnd := AlignedStart(memStart), AlignedEnd(memEnd);
      freeList := AlignedStart(memStart);
      freeMem, usedMem, allocs, frees := AlignedEnd(memEnd) - AlignedStart(memStart) - BLOCK_HEADER, 0, 0, 0;
      free := [Block(AlignedStart(memStart), AlignedEnd(memEnd) - AlignedStart(memStart) - BLOCK_HEADER)];
      live, lost := [], 0;
      new;
      hide Word, Put, PutWord, FreeList, AllOwned, Inv, AlignedStart, AlignedEnd;
      InvInit(heapStart, heapEnd);
      InitListed(heapStart, heapEnd);
      FormatFirst(heapStart, heapEnd - heapStart - BLOCK_HEADER);
    }

    /** The header of the first block. */
    method FormatFirst(block: nat, size: nat)
      requires block + BLOCK_HEADER <= mem.Length && size < TWO64
      modifies mem
      ensures FreeList(mem[..], block, [Block(block, size)]) && AllOwned(mem[..], [])
    {
      hide Put, PutWord, FreeList, AllOwned;
      ghost var m := mem[..];
      WriteWord(block, size);
      WriteWord(block + 16, 0);
      WriteByte(block + 8, BLOCK_MAGIC);
      Formatted(m, block, size);
    }
  }
}
