/**
 * The kernel heap as a value: free blocks in list order, live blocks, and the
 * counters the allocator keeps.  Says what every call does to them, which block
 * is chosen, and what all runs keep.
 */
module HeapModel {
  import opened Common
  import opened Bytes

  /** sizeof(free_block_t): every block starts with this many header bytes. */
  const BLOCK_HEADER: nat := 24
  /** sizeof(block_header_t): the user's pointer is this far into the block. */
  const HEADER_SIZE: nat := 16
  const MIN_BLOCK_SIZE: nat := BLOCK_HEADER + 8
  const MEM_ALIGNMENT: nat := 8

  datatype Block = Block(addr: nat, size: nat)

  function End(b: Block): (e: nat) {
    b.addr + BLOCK_HEADER + b.size
  }

  /** `lost` counts the bytes given up when a block is too small to split. */
  datatype Heap = Heap(
    lo: nat, hi: nat, free: seq<Block>, live: seq<Block>,
    freeMem: int, usedMem: int, allocs: nat, frees: nat, lost: nat)

  // ----- the operations --------------------------------------------------------

  /** ALIGN_UP(n, 8) on 64-bit unsigned integers. */
  function AlignUp(n: nat): (r: nat)
    requires n < TWO64
    ensures r % MEM_ALIGNMENT == 0
    ensures n <= r <==> n <= TWO64 - 8
    ensures n <= TWO64 - 8 ==> r < n + 8
    ensures n > TWO64 - 8 ==> r == 0
  {
    (n + 7) % TWO64 / 8 * 8
  }

  predicate Fits(b: Block, size: nat) {
    b.size >= size
  }

  /** Position of the first among the smallest sufficient blocks. */
  function BestFit(free: seq<Block>, size: nat): (r: Option<nat>)
    ensures r.Some? ==> IsBest(free, size, r.value)
    ensures r.None? ==> forall j :: 0 <= j < |free| ==> !Fits(free[j], size)
  {
    if free == [] then None
    else match BestFit(free[1..], size)
      case None => if Fits(free[0], size) then Some(0) else None
      case Some(k) => if Fits(free[0], size) && free[0].size <= free[1..][k].size then Some(0) else Some(k + 1)
  }

  predicate IsBest(free: seq<Block>, size: nat, k: nat) {
    && k < |free| && Fits(free[k], size)
    && (forall j :: 0 <= j < |free| && Fits(free[j], size) ==> free[k].size <= free[j].size)
    && (forall j :: 0 <= j < k && Fits(free[j], size) ==> free[k].size < free[j].size)
  }

  /** What is left of a block after cutting `size` bytes off, if that is worth a block. */
  function Rest(b: Block, size: nat): (r: seq<Block>)
    requires Fits(b, size)
  {
    if b.size - size - BLOCK_HEADER < MIN_BLOCK_SIZE then []
    else [Block(b.addr + BLOCK_HEADER + size, b.size - size - BLOCK_HEADER)]
  }

  function Joined(a: Block, b: Block): (r: Block) {
    Block(a.addr, a.size + BLOCK_HEADER + b.size)
  }

  /** One pass of coalescing: list neighbours that touch are joined. */
  function Merge(free: seq<Block>): (r: seq<Block>)
    ensures |r| <= |free| && (r == [] <==> free == [])
    decreases |free|
  {
    if |free| < 2 then free
    else if End(free[0]) == free[1].addr then Merge([Joined(free[0], free[1])] + free[2..])
    else [free[0]] + Merge(free[1..])
  }

  function Coalesce(h: Heap): (r: Heap) {
    var merged := Merge(h.free);
    h.(free := merged, freeMem := h.freeMem + BLOCK_HEADER * (|h.free| - |merged|))
  }

  /** Allocates `size` bytes from free block `k`. */
  function Carve(h: Heap, k: nat, size: nat): (r: Heap)
    requires k < |h.free| && Fits(h.free[k], size)
  {
    var b := h.free[k];
    var rest := Rest(b, size);
    h.(free := h.free[..k] + rest + h.free[k + 1..],
       live := [Block(b.addr, size)] + h.live,
       freeMem := h.freeMem - BLOCK_HEADER * |rest| - (size + HEADER_SIZE),
       usedMem := h.usedMem + size + HEADER_SIZE,
       allocs := h.allocs + 1,
       lost := h.lost + if rest == [] then b.size - size else 0)
  }

  /** kmalloc: the new heap and the pointer, or 0. */
  function Malloc(h: Heap, n: nat): (r: (Heap, nat))
    requires n < TWO64
  {
    if n == 0 then (h, 0)
    else
      var size := AlignUp(n);
      match BestFit(h.free, size)
      case Some(k) => (Carve(h, k, size), h.free[k].addr + HEADER_SIZE)
      case None =>
        var c := Coalesce(h);
        match BestFit(c.free, size)
        case Some(k) => (Carve(c, k, size), c.free[k].addr + HEADER_SIZE)
        case None => (c, 0)
  }

  function Drop(xs: seq<Block>, k: nat): (r: seq<Block>)
    requires k < |xs|
    ensures |r| == |xs| - 1
  {
    xs[..k] + xs[k + 1..]
  }

  /** kfree of live block `k`. */
  function Release(h: Heap, k: nat): (r: Heap)
    requires k < |h.live|
  {
    var b := h.live[k];
    Coalesce(h.(
      free := [b] + h.free, live := Drop(h.live, k),
      freeMem := h.freeMem + b.size + HEADER_SIZE,
      usedMem := h.usedMem - (b.size + HEADER_SIZE),
      frees := h.frees + 1))
  }

  /** Position of the live block whose user pointer is `ptr`. */
  function Find(live: seq<Block>, ptr: nat): (r: Option<nat>)
    ensures r.Some? ==> r.value < |live| && live[r.value].addr + HEADER_SIZE == ptr
    ensures r.None? ==> forall k :: 0 <= k < |live| ==> live[k].addr + HEADER_SIZE != ptr
  {
    if live == [] then None
    else if live[0].addr + HEADER_SIZE == ptr then Some(0)
    else match Find(live[1..], ptr)
      case None => None
      case Some(k) => Some(k + 1)
  }

  /** kfree: a pointer that is not live is reported and ignored. */
  function Free(h: Heap, ptr: nat): (r: Heap) {
    match Find(h.live, ptr)
    case None => h
    case Some(k) => Release(h, k)
  }

  /** krealloc on 0 or a live pointer. */
  function Realloc(h: Heap, ptr: nat, n: nat): (r: (Heap, nat))
    requires n < TWO64
  {
    if ptr == 0 then Malloc(h, n)
    else if n == 0 then (Free(h, ptr), 0)
    else match Find(h.live, ptr)
      case None => (h, 0)
      case Some(k) =>
        if h.live[k].size >= n then (h, ptr)
        else
          var (h1, p) := Malloc(h, n);
          if p == 0 then (h1, 0) else (Free(h1, ptr), p)
  }

  /** memory_init on an aligned region. */
  function Init(lo: nat, hi: nat): (h: Heap)
    requires lo + BLOCK_HEADER <= hi
  {
    Heap(lo, hi, [Block(lo, hi - lo - BLOCK_HEADER)], [], hi - lo - BLOCK_HEADER, 0, 0, 0, 0)
  }

  // ----- the invariant -----------------------------------------------------------

  predicate Apart(b: Block, c: Block) {
    End(b) <= c.addr || End(c) <= b.addr
  }

  /** Inside the region and 8-aligned. */
  predicate Placed(lo: nat, hi: nat, b: Block) {
    lo <= b.addr && End(b) <= hi && b.addr % MEM_ALIGNMENT == 0 && b.size % MEM_ALIGNMENT == 0
  }

  ghost predicate AllPlaced(lo: nat, hi: nat, xs: seq<Block>) {
    forall i :: 0 <= i < |xs| ==> Placed(lo, hi, xs[i])
  }

  ghost predicate ApartFrom(b: Block, xs: seq<Block>) {
    forall i :: 0 <= i < |xs| ==> Apart(b, xs[i])
  }

  ghost predicate Pairwise(xs: seq<Block>) {
    forall i, j :: 0 <= i < j < |xs| ==> Apart(xs[i], xs[j])
  }

  ghost predicate Cross(xs: seq<Block>, ys: seq<Block>) {
    forall i :: 0 <= i < |xs| ==> ApartFrom(xs[i], ys)
  }

  function Extent(xs: seq<Block>): (n: nat) {
    if xs == [] then 0 else BLOCK_HEADER + xs[0].size + Extent(xs[1..])
  }

  function InUse(live: seq<Block>): (n: nat) {
    if live == [] then 0 else live[0].size + HEADER_SIZE + InUse(live[1..])
  }

  /** No two blocks overlap and all lie aligned inside the region. */
  ghost predicate Disjoint(h: Heap) {
    && AllPlaced(h.lo, h.hi, h.free) && AllPlaced(h.lo, h.hi, h.live)
    && Pairwise(h.free) && Pairwise(h.live) && Cross(h.free, h.live)
  }

  /** Every byte is in a free block, in a live block or lost; the counters follow. */
  ghost predicate Accounted(h: Heap) {
    && Extent(h.free) + Extent(h.live) + h.lost == h.hi - h.lo
    && h.usedMem == InUse(h.live)
    && h.usedMem + h.freeMem == (h.hi - h.lo) - BLOCK_HEADER * (|h.free| + |h.live|)
    && |h.free| + |h.live| >= 1
  }

  ghost predicate Inv(h: Heap) {
    && 0 < h.lo <= h.hi < TWO64 && h.lo % MEM_ALIGNMENT == 0 && h.hi % MEM_ALIGNMENT == 0
    && Disjoint(h) && Accounted(h)
  }

  // ----- coalescing ----------------------------------------------------------------

  predicate Covers(b: Block, a: nat) {
    b.addr <= a < End(b)
  }

  ghost predicate Covered(xs: seq<Block>, a: nat) {
    exists i :: 0 <= i < |xs| && Covers(xs[i], a)
  }

  lemma CoveredCons(x: Block, xs: seq<Block>, a: nat)
    ensures Covered([x] + xs, a) <==> Covers(x, a) || Covered(xs, a)
  {
    if Covers(x, a) { assert Covers(([x] + xs)[0], a); }
    if Covered(xs, a) {
      var i :| 0 <= i < |xs| && Covers(xs[i], a);
      assert Covers(([x] + xs)[i + 1], a);
    }
  }

  /** Coalescing covers exactly the same bytes. */
  lemma {:induction false} MergeCovers(free: seq<Block>, a: nat)
    ensures Covered(Merge(free), a) <==> Covered(free, a)
    decreases |free|
  {
    if |free| >= 2 {
      assert free == [free[0]] + free[1..] && free[1..] == [free[1]] + free[2..];
      CoveredCons(free[0], free[1..], a);
      if End(free[0]) == free[1].addr {
        CoveredCons(free[1], free[2..], a);
        CoveredCons(Joined(free[0], free[1]), free[2..], a);
        MergeCovers([Joined(free[0], free[1])] + free[2..], a);
      } else {
        MergeCovers(free[1..], a);
        CoveredCons(free[0], Merge(free[1..]), a);
      }
    }
  }

  /** No block ends where its list successor begins. */
  ghost predicate Settled(xs: seq<Block>) {
    forall i :: 1 <= i < |xs| ==> End(xs[i - 1]) != xs[i].addr
  }

  lemma {:induction false} MergeSettles(free: seq<Block>)
    ensures Settled(Merge(free))
    ensures free != [] ==> Merge(free)[0].addr == free[0].addr
    decreases |free|
  {
    if |free| >= 2 {
      if End(free[0]) == free[1].addr {
        MergeSettles([Joined(free[0], free[1])] + free[2..]);
      } else {
        MergeSettles(free[1..]);
      }
    }
  }

  lemma {:induction false} SettledMerge(xs: seq<Block>)
    requires Settled(xs)
    ensures Merge(xs) == xs
    decreases |xs|
  {
    if |xs| >= 2 {
      assert forall i :: 0 <= i < |xs[1..]| ==> xs[1..][i] == xs[i + 1];
      SettledMerge(xs[1..]);
    }
  }

  /** A second pass changes nothing. */
  lemma CoalesceIdempotent(h: Heap)
    ensures Coalesce(Coalesce(h)) == Coalesce(h)
  {
    MergeSettles(h.free);
    SettledMerge(Merge(h.free));
  }

  lemma {:induction false} MergeApart(b: Block, free: seq<Block>)
    requires ApartFrom(b, free)
    ensures ApartFrom(b, Merge(free))
    decreases |free|
  {
    if |free| >= 2 {
      if End(free[0]) == free[1].addr {
        var xs := [Joined(free[0], free[1])] + free[2..];
        assert forall i :: 1 <= i < |xs| ==> xs[i] == free[i + 1];
        MergeApart(b, xs);
      } else {
        MergeApart(b, free[1..]);
      }
    }
  }

  lemma {:induction false} MergePairwise(free: seq<Block>)
    requires Pairwise(free)
    ensures Pairwise(Merge(free))
    decreases |free|
  {
    if |free| >= 2 {
      if End(free[0]) == free[1].addr {
        var xs := [Joined(free[0], free[1])] + free[2..];
        assert forall i :: 1 <= i < |xs| ==> xs[i] == free[i + 1];
        assert forall i :: 2 <= i < |free| ==> Apart(free[0], free[i]) && Apart(free[1], free[i]);
        MergePairwise(xs);
      } else {
        MergePairwise(free[1..]);
        MergeApart(free[0], free[1..]);
      }
    }
  }

  lemma JoinedPlaced(lo: nat, hi: nat, a: Block, b: Block)
    requires Placed(lo, hi, a) && Placed(lo, hi, b) && End(a) == b.addr
    ensures Placed(lo, hi, Joined(a, b))
  {
  }

  lemma {:induction false} MergePlaced(lo: nat, hi: nat, free: seq<Block>)
    requires AllPlaced(lo, hi, free)
    ensures AllPlaced(lo, hi, Merge(free)) && Extent(Merge(free)) == Extent(free)
    decreases |free|
  {
    hide Placed;
    if |free| >= 2 {
      assert free[1..][1..] == free[2..];
      if End(free[0]) == free[1].addr {
        JoinedPlaced(lo, hi, free[0], free[1]);
        var xs := [Joined(free[0], free[1])] + free[2..];
        assert forall i :: 1 <= i < |xs| ==> xs[i] == free[i + 1];
        assert xs[1..] == free[2..];
        MergePlaced(lo, hi, xs);
      } else {
        MergePlaced(lo, hi, free[1..]);
        assert ([free[0]] + Merge(free[1..]))[1..] == Merge(free[1..]);
      }
    }
  }

  lemma ApartSymmetric(xs: seq<Block>, ys: seq<Block>)
    requires Cross(xs, ys)
    ensures Cross(ys, xs)
  {
    forall i | 0 <= i < |ys| ensures ApartFrom(ys[i], xs) {
      forall j | 0 <= j < |xs| ensures Apart(ys[i], xs[j]) {
        assert ApartFrom(xs[j], ys);
      }
    }
  }

  lemma MergeCross(free: seq<Block>, live: seq<Block>)
    requires Cross(free, live)
    ensures Cross(Merge(free), live)
  {
    ApartSymmetric(free, live);
    forall i | 0 <= i < |live| ensures ApartFrom(live[i], Merge(free)) {
      assert ApartFrom(live[i], free);
      MergeApart(live[i], free);
    }
    ApartSymmetric(live, Merge(free));
  }

  lemma InvCoalesce(h: Heap)
    requires Inv(h)
    ensures Inv(Coalesce(h))
  {
    MergePairwise(h.free);
    MergePlaced(h.lo, h.hi, h.free);
    MergeCross(h.free, h.live);
  }

  // ----- allocation ------------------------------------------------------------------

  /** `c` lies within `b`. */
  predicate Within(c: Block, b: Block) {
    b.addr <= c.addr && End(c) <= End(b)
  }

  /** The allocated part and the rest of a block lie within it, apart from each other. */
  lemma CutBlock(b: Block, size: nat)
    requires Fits(b, size)
    ensures Within(Block(b.addr, size), b)
    ensures forall c :: c in Rest(b, size) ==> Within(c, b) && Apart(c, Block(b.addr, size))
    ensures b.size % MEM_ALIGNMENT == 0 && size % MEM_ALIGNMENT == 0 && b.addr % MEM_ALIGNMENT == 0 ==>
              forall c :: c in Rest(b, size) ==> c.addr % MEM_ALIGNMENT == 0 && c.size % MEM_ALIGNMENT == 0
  {
    if b.size % MEM_ALIGNMENT == 0 && size % MEM_ALIGNMENT == 0 && b.addr % MEM_ALIGNMENT == 0 {
      EightFold(b.addr, b.size, size);
    }
  }

  lemma EightFold(x: int, y: int, z: int)
    requires x % 8 == 0 && y % 8 == 0 && z % 8 == 0
    ensures (x + 24 + z) % 8 == 0 && (y - z - 24) % 8 == 0
  {
  }

  /** The free list after carving: block `k` is replaced by its rest, if any. */
  function CarvedFree(free: seq<Block>, k: nat, size: nat): (r: seq<Block>)
    requires k < |free| && Fits(free[k], size)
  {
    free[..k] + Rest(free[k], size) + free[k + 1..]
  }

  /** Each block of the carved list lies within a block of the old one, in the same order. */
  lemma CarvedOrigin(free: seq<Block>, k: nat, size: nat, i: nat) returns (o: nat)
    requires k < |free| && Fits(free[k], size) && i < |CarvedFree(free, k, size)|
    ensures o < |free| && o == (if i < k || |Rest(free[k], size)| == 1 then i else i + 1)
    ensures if o == k then CarvedFree(free, k, size)[i] in Rest(free[k], size)
            else CarvedFree(free, k, size)[i] == free[o]
    ensures Within(CarvedFree(free, k, size)[i], free[o])
  {
    o := if i < k || |Rest(free[k], size)| == 1 then i else i + 1;
  }

  lemma CarvePairwise(free: seq<Block>, k: nat, size: nat)
    requires Pairwise(free) && k < |free| && Fits(free[k], size)
    ensures Pairwise(CarvedFree(free, k, size))
    ensures ApartFrom(Block(free[k].addr, size), CarvedFree(free, k, size))
  {
    var r := CarvedFree(free, k, size);
    CutBlock(free[k], size);
    forall i, j | 0 <= i < j < |r| ensures Apart(r[i], r[j]) {
      var oi := CarvedOrigin(free, k, size, i);
      var oj := CarvedOrigin(free, k, size, j);
      assert Apart(free[oi], free[oj]);
    }
    forall i | 0 <= i < |r| ensures Apart(Block(free[k].addr, size), r[i]) {
      var oi := CarvedOrigin(free, k, size, i);
      assert oi < k ==> Apart(free[oi], free[k]);
      assert oi > k ==> Apart(free[k], free[oi]);
    }
  }

  lemma CarveCross(free: seq<Block>, live: seq<Block>, k: nat, size: nat)
    requires Cross(free, live) && k < |free| && Fits(free[k], size)
    ensures Cross(CarvedFree(free, k, size), live)
    ensures ApartFrom(Block(free[k].addr, size), live)
  {
    var r := CarvedFree(free, k, size);
    forall i | 0 <= i < |r| ensures ApartFrom(r[i], live) {
      var o := CarvedOrigin(free, k, size, i);
      assert ApartFrom(free[o], live);
    }
    assert ApartFrom(free[k], live);
  }

  lemma CarvePlaced(lo: nat, hi: nat, free: seq<Block>, k: nat, size: nat)
    requires AllPlaced(lo, hi, free) && k < |free| && Fits(free[k], size) && size % MEM_ALIGNMENT == 0
    ensures AllPlaced(lo, hi, CarvedFree(free, k, size)) && Placed(lo, hi, Block(free[k].addr, size))
  {
    var r := CarvedFree(free, k, size);
    CutBlock(free[k], size);
    forall i | 0 <= i < |r| ensures Placed(lo, hi, r[i]) {
      var o := CarvedOrigin(free, k, size, i);
    }
  }

  lemma {:induction false} ExtentConcat(xs: seq<Block>, ys: seq<Block>)
    ensures Extent(xs + ys) == Extent(xs) + Extent(ys)
  {
    if xs == [] {
      assert xs + ys == ys;
    } else {
      ExtentConcat(xs[1..], ys);
      assert (xs + ys)[1..] == xs[1..] + ys;
    }
  }

  lemma CarveExtent(free: seq<Block>, k: nat, size: nat)
    requires k < |free| && Fits(free[k], size)
    ensures Extent(CarvedFree(free, k, size)) + BLOCK_HEADER + size
              + (if Rest(free[k], size) == [] then free[k].size - size else 0) == Extent(free)
  {
    var rest := Rest(free[k], size);
    ExtentConcat(free[..k] + rest, free[k + 1..]);
    ExtentConcat(free[..k], rest);
    ExtentConcat(free[..k], [free[k]] + free[k + 1..]);
    assert free == free[..k] + ([free[k]] + free[k + 1..]);
    assert ([free[k]] + free[k + 1..])[1..] == free[k + 1..];
  }

  lemma InvCarve(h: Heap, k: nat, size: nat)
    requires Inv(h) && k < |h.free| && Fits(h.free[k], size) && size % MEM_ALIGNMENT == 0
    ensures Inv(Carve(h, k, size))
  {
    var r := Carve(h, k, size);
    assert r.free == CarvedFree(h.free, k, size);
    CarvePairwise(h.free, k, size);
    CarveCross(h.free, h.live, k, size);
    CarvePlaced(h.lo, h.hi, h.free, k, size);
    CarveExtent(h.free, k, size);
    var b := Block(h.free[k].addr, size);
    forall i | 0 <= i < |r.free| ensures ApartFrom(r.free[i], r.live) {
      assert Apart(b, r.free[i]) && ApartFrom(r.free[i], h.live);
    }
    assert r.live[1..] == h.live;
  }

  /** A pointer has one live block. */
  lemma FindAt(live: seq<Block>, k: nat)
    requires Pairwise(live) && k < |live|
    ensures Find(live, live[k].addr + HEADER_SIZE) == Some(k)
  {
    OthersElsewhere(live, k);
  }

  lemma OthersElsewhere(live: seq<Block>, k: nat)
    requires Pairwise(live) && k < |live|
    ensures forall j :: 0 <= j < |live| && j != k ==> live[j].addr != live[k].addr && Apart(live[j], live[k])
  {
    forall j | 0 <= j < |live| && j != k ensures live[j].addr != live[k].addr && Apart(live[j], live[k]) {
      assert Apart(live[if j < k then j else k], live[if j < k then k else j]);
    }
  }

  lemma InvLive(h: Heap)
    requires Inv(h)
    ensures Pairwise(h.live)
  {
  }

  // ----- release -------------------------------------------------------------------------

  lemma DropOrigin(xs: seq<Block>, k: nat)
    requires k < |xs|
    ensures forall i :: 0 <= i < |Drop(xs, k)| ==> Drop(xs, k)[i] == xs[if i < k then i else i + 1]
    ensures Extent(Drop(xs, k)) + BLOCK_HEADER + xs[k].size == Extent(xs)
    ensures InUse(Drop(xs, k)) + xs[k].size + HEADER_SIZE == InUse(xs)
  {
    assert xs == xs[..k] + ([xs[k]] + xs[k + 1..]) && ([xs[k]] + xs[k + 1..])[1..] == xs[k + 1..];
    ExtentConcat(xs[..k], xs[k + 1..]);
    ExtentConcat(xs[..k], [xs[k]] + xs[k + 1..]);
    InUseConcat(xs[..k], xs[k + 1..]);
    InUseConcat(xs[..k], [xs[k]] + xs[k + 1..]);
  }

  lemma {:induction false} InUseConcat(xs: seq<Block>, ys: seq<Block>)
    ensures InUse(xs + ys) == InUse(xs) + InUse(ys)
  {
    if xs == [] {
      assert xs + ys == ys;
    } else {
      InUseConcat(xs[1..], ys);
      assert (xs + ys)[1..] == xs[1..] + ys;
    }
  }

  /** The heap before the final coalescing of kfree. */
  function Returned(h: Heap, k: nat): (r: Heap)
    requires k < |h.live|
  {
    var b := h.live[k];
    h.(free := [b] + h.free, live := Drop(h.live, k),
       freeMem := h.freeMem + b.size + HEADER_SIZE,
       usedMem := h.usedMem - (b.size + HEADER_SIZE),
       frees := h.frees + 1)
  }

  lemma ReturnedApart(h: Heap, k: nat)
    requires Disjoint(h) && k < |h.live|
    ensures Disjoint(Returned(h, k))
  {
    var r := Returned(h, k);
    DropOrigin(h.live, k);
    ApartSymmetric(h.free, h.live);
    assert ApartFrom(h.live[k], h.free);
    forall i | 0 <= i < |r.free| ensures ApartFrom(r.free[i], r.live) {
      if i > 0 { assert ApartFrom(h.free[i - 1], h.live); }
    }
  }

  lemma InvRelease(h: Heap, k: nat)
    requires Inv(h) && k < |h.live|
    ensures Inv(Release(h, k))
  {
    ReturnedApart(h, k);
    DropOrigin(h.live, k);
    assert Returned(h, k).free[1..] == h.free;
    InvCoalesce(Returned(h, k));
  }

  // ----- main results --------------------------------------------------------------------

  lemma InvMalloc(h: Heap, n: nat)
    requires Inv(h) && n < TWO64
    ensures Inv(Malloc(h, n).0)
  {
    InvCoalesce(h);
    var size := AlignUp(n);
    if BestFit(h.free, size).Some? { InvCarve(h, BestFit(h.free, size).value, size); }
    if BestFit(Coalesce(h).free, size).Some? { InvCarve(Coalesce(h), BestFit(Coalesce(h).free, size).value, size); }
  }

  lemma InvFree(h: Heap, ptr: nat)
    requires Inv(h)
    ensures Inv(Free(h, ptr))
  {
    if Find(h.live, ptr).Some? { InvRelease(h, Find(h.live, ptr).value); }
  }

  lemma InvInit(lo: nat, hi: nat)
    requires 0 < lo && lo + BLOCK_HEADER <= hi < TWO64 && lo % MEM_ALIGNMENT == 0 && hi % MEM_ALIGNMENT == 0
    ensures Inv(Init(lo, hi))
  {
  }

  /** Coalescing only makes blocks larger: what fitted still fits. */
  lemma {:induction false} MergeKeepsFitting(free: seq<Block>, size: nat, j: nat)
    requires j < |free| && Fits(free[j], size)
    ensures exists i :: 0 <= i < |Merge(free)| && Fits(Merge(free)[i], size)
    decreases |free|
  {
    if |free| < 2 {
      assert Fits(Merge(free)[j], size);
    } else if End(free[0]) == free[1].addr {
      var xs := [Joined(free[0], free[1])] + free[2..];
      var j' := if j < 2 then 0 else j - 1;
      assert Fits(xs[j'], size) && Merge(free) == Merge(xs);
      MergeKeepsFitting(xs, size, j');
    } else if j == 0 {
      assert Fits(Merge(free)[0], size);
    } else {
      MergeKeepsFitting(free[1..], size, j - 1);
      var i :| 0 <= i < |Merge(free[1..])| && Fits(Merge(free[1..])[i], size);
      assert Merge(free)[i + 1] == Merge(free[1..])[i];
    }
  }

  /**
   * kmalloc is complete: it fails exactly for size 0 and when no free block is
   * large enough even after coalescing.
   */
  lemma MallocComplete(h: Heap, n: nat)
    requires n < TWO64
    ensures Malloc(h, n).1 == 0 <==>
              n == 0 || forall i :: 0 <= i < |Merge(h.free)| ==> !Fits(Merge(h.free)[i], AlignUp(n))
  {
    hide Merge, Carve, BestFit, AlignUp, Fits;
    if n != 0 {
      var size, merged := AlignUp(n), Merge(h.free);
      if BestFit(h.free, size).Some? {
        var k := BestFit(h.free, size).value;
        BestFound(h.free, size);
        MergeKeepsFitting(h.free, size, k);
      } else if BestFit(merged, size).Some? {
        BestFound(merged, size);
        assert Fits(merged[BestFit(merged, size).value], size);
      } else {
        assert Malloc(h, n).1 == 0;
      }
    }
  }

  lemma BestFound(free: seq<Block>, size: nat)
    requires BestFit(free, size).Some?
    ensures BestFit(free, size).value < |free| && Fits(free[BestFit(free, size).value], size)
  {
  }

  /**
   * kmalloc is optimal: a successful call takes the first of the smallest
   * sufficient blocks of the list it searched, which is the uncoalesced list
   * whenever that has a sufficient block.
   */
  lemma MallocOptimal(h: Heap, n: nat) returns (searched: seq<Block>, k: nat)
    requires n < TWO64 && Malloc(h, n).1 != 0
    ensures searched == (if exists i :: 0 <= i < |h.free| && Fits(h.free[i], AlignUp(n)) then h.free else Merge(h.free))
    ensures IsBest(searched, AlignUp(n), k)
    ensures Malloc(h, n).1 == searched[k].addr + HEADER_SIZE
    ensures Malloc(h, n).0.live == [Block(searched[k].addr, AlignUp(n))] + h.live
  {
    var size := AlignUp(n);
    if BestFit(h.free, size).Some? {
      searched, k := h.free, BestFit(h.free, size).value;
      assert Fits(h.free[k], size);
    } else {
      searched, k := Merge(h.free), BestFit(Merge(h.free), size).value;
    }
  }

  /** A block handed out by kmalloc was free memory before. */
  lemma MallocWithin(h: Heap, n: nat)
    requires n < TWO64 && Malloc(h, n).1 != 0
    ensures var b := Block(Malloc(h, n).1 - HEADER_SIZE, AlignUp(n));
            && Malloc(h, n).0.live == [b] + h.live && Malloc(h, n).1 >= HEADER_SIZE
            && forall a :: Covers(b, a) ==> Covered(h.free, a)
  {
    var searched, k := MallocOptimal(h, n);
    var b := Block(searched[k].addr, AlignUp(n));
    forall a | Covers(b, a) ensures Covered(h.free, a) {
      assert Covers(searched[k], a);
      MergeCovers(h.free, a);
    }
  }

  lemma InvRealloc(h: Heap, ptr: nat, n: nat)
    requires Inv(h) && n < TWO64
    ensures Inv(Realloc(h, ptr, n).0)
  {
    hide Inv, Malloc, Free;
    InvMalloc(h, n);
    InvFree(h, ptr);
    InvFree(Malloc(h, n).0, ptr);
  }

  datatype Event = EMalloc(n: nat) | EFree(ptr: nat) | ERealloc(ptr: nat, n: nat)

  predicate Legal(e: Event) {
    e.EFree? || e.n < TWO64
  }

  predicate AllLegal(es: seq<Event>) {
    forall i :: 0 <= i < |es| ==> Legal(es[i])
  }

  function Step(h: Heap, e: Event): (r: Heap)
    requires Legal(e)
  {
    match e
    case EMalloc(n) => Malloc(h, n).0
    case EFree(ptr) => Free(h, ptr)
    case ERealloc(ptr, n) => Realloc(h, ptr, n).0
  }

  function Run(h: Heap, es: seq<Event>): (r: Heap)
    requires AllLegal(es)
    decreases es
  {
    if es == [] then h else Run(Step(h, es[0]), es[1..])
  }

  lemma InvStep(h: Heap, e: Event)
    requires Inv(h) && Legal(e)
    ensures Inv(Step(h, e)) && Step(h, e).lo == h.lo && Step(h, e).hi == h.hi
  {
    hide Inv, Merge, BestFit;
    match e
    case EMalloc(n) => InvMalloc(h, n);
    case EFree(ptr) => InvFree(h, ptr);
    case ERealloc(ptr, n) => InvRealloc(h, ptr, n);
  }

  lemma {:induction false} RunInv(h: Heap, es: seq<Event>)
    requires Inv(h) && AllLegal(es)
    ensures Inv(Run(h, es)) && Run(h, es).lo == h.lo && Run(h, es).hi == h.hi
    decreases es
  {
    hide Inv, Step;
    if es != [] {
      InvStep(h, es[0]);
      RunInv(Step(h, es[0]), es[1..]);
    }
  }

  /**
   * In every run free and live blocks stay disjoint, aligned and inside the heap,
   * and used + free = total - 24 * blocks, so the test used + free = total of the
   * integrity check never holds.
   */
  lemma HeapSafety(lo: nat, hi: nat, es: seq<Event>)
    requires 0 < lo && lo + BLOCK_HEADER <= hi < TWO64 && lo % MEM_ALIGNMENT == 0 && hi % MEM_ALIGNMENT == 0
    requires AllLegal(es)
    ensures var h := Run(Init(lo, hi), es);
            && Disjoint(h)
            && h.usedMem + h.freeMem == (hi - lo) - BLOCK_HEADER * (|h.free| + |h.live|) != hi - lo
            && Extent(h.free) + Extent(h.live) + h.lost == hi - lo
  {
    InvInit(lo, hi);
    RunInv(Init(lo, hi), es);
  }

  /** Once everything is freed, the free counter is back at its start exactly when one block is left. */
  lemma AllFreed(lo: nat, hi: nat, es: seq<Event>)
    requires 0 < lo && lo + BLOCK_HEADER <= hi < TWO64 && lo % MEM_ALIGNMENT == 0 && hi % MEM_ALIGNMENT == 0
    requires AllLegal(es) && Run(Init(lo, hi), es).live == []
    ensures Run(Init(lo, hi), es).freeMem == Init(lo, hi).freeMem <==> |Run(Init(lo, hi), es).free| == 1
  {
    HeapSafety(lo, hi, es);
    InvInit(lo, hi);
    RunInv(Init(lo, hi), es);
  }

  /**
   * The free counter is the free payload plus the lost bytes minus 16 for every
   * live block; as an unsigned number it therefore wraps exactly when the live
   * headers outweigh the rest.
   */
  lemma FreeCounter(h: Heap)
    requires Inv(h)
    ensures h.freeMem == Payload(h.free) + h.lost - HEADER_SIZE * |h.live|
    ensures h.freeMem < 0 <==> Payload(h.free) + h.lost < HEADER_SIZE * |h.live|
  {
    ExtentPayload(h.free);
    ExtentInUse(h.live);
  }

  function Payload(xs: seq<Block>): (n: nat) {
    if xs == [] then 0 else xs[0].size + Payload(xs[1..])
  }

  lemma {:induction false} ExtentPayload(xs: seq<Block>)
    ensures Extent(xs) == Payload(xs) + BLOCK_HEADER * |xs|
  {
    if xs != [] { ExtentPayload(xs[1..]); }
  }

  lemma {:induction false} ExtentInUse(xs: seq<Block>)
    ensures Extent(xs) == InUse(xs) + 8 * |xs|
  {
    if xs != [] { ExtentInUse(xs[1..]); }
  }

  /**
   * Three 8-byte allocations in a heap of 152 bytes make the free counter negative.
   * Each of them splits, as the code's own test says, and nothing is lost.
   */
  lemma FreeCounterUnderflows(lo: nat)
    requires 0 < lo && lo + 152 < TWO64 && lo % MEM_ALIGNMENT == 0
    ensures var es := [EMalloc(8), EMalloc(8), EMalloc(8)];
            var h := Run(Init(lo, lo + 152), es);
            && |h.live| == 3 && h.lost == 0 && h.freeMem == -16
            && forall i :: 0 <= i < 3 ==>
                 var g := Run(Init(lo, lo + 152), es[..i]);
                 |g.free| == 1 && Fits(g.free[0], 8) && SplitsAsWritten(g.free[0], 8) && Rest(g.free[0], 8) != []
  {
    hide Merge;
    var es := [EMalloc(8), EMalloc(8), EMalloc(8)];
    var h0 := Init(lo, lo + 152);
    MallocSplits(h0, 8);
    var h1 := Malloc(h0, 8).0;
    MallocSplits(h1, 8);
    var h2 := Malloc(h1, 8).0;
    MallocSplits(h2, 8);
    assert es[..0] == [] && es[..1] == [EMalloc(8)] && es[..2] == [EMalloc(8), EMalloc(8)];
    assert es[1..] == [EMalloc(8), EMalloc(8)] && es[1..][1..] == [EMalloc(8)] && es[1..][1..][1..] == [];
    assert es[..1][1..] == [] && es[..2][1..] == [EMalloc(8)] && es[..2][1..][1..] == [];
    assert Run(h0, es[..1]) == h1;
    assert Run(h0, es[..2]) == Run(h1, es[..2][1..]) == h2;
    assert Run(h0, es) == Run(h1, es[1..]) == Run(h2, es[1..][1..]) == Malloc(h2, 8).0;
  }

  /** With one free block that is worth splitting, kmalloc cuts its front off. */
  lemma MallocSplits(h: Heap, n: nat)
    requires 0 < n && n % MEM_ALIGNMENT == 0 && n <= TWO64 - 8
    requires |h.free| == 1 && h.free[0].size >= n + BLOCK_HEADER + MIN_BLOCK_SIZE && h.free[0].size < TWO64
    ensures SplitsAsWritten(h.free[0], n)
    ensures Malloc(h, n).0 ==
            h.(free := [Block(h.free[0].addr + BLOCK_HEADER + n, h.free[0].size - n - BLOCK_HEADER)],
               live := [Block(h.free[0].addr, n)] + h.live,
               freeMem := h.freeMem - BLOCK_HEADER - (n + HEADER_SIZE),
               usedMem := h.usedMem + n + HEADER_SIZE, allocs := h.allocs + 1)
  {
    hide AlignUp;
    AlignedFixed(n);
    assert BestFit(h.free, n) == Some(0);
    assert h.free[..0] + Rest(h.free[0], n) + h.free[1..] == Rest(h.free[0], n);
  }

  lemma FreeKeepsLive(h: Heap, ptr: nat, b: Block)
    requires b in h.live && ptr != b.addr + HEADER_SIZE
    ensures b in Free(h, ptr).live
  {
    hide Merge;
    if Find(h.live, ptr).Some? {
      var k := Find(h.live, ptr).value;
      var j :| 0 <= j < |h.live| && h.live[j] == b;
      assert j != k;
      assert Drop(h.live, k)[if j < k then j else j - 1] == b;
    }
  }

  lemma MallocKeepsLive(h: Heap, n: nat, b: Block)
    requires b in h.live && n < TWO64
    ensures b in Malloc(h, n).0.live
  {
    hide Merge, BestFit;
  }

  /** The event is about the block with this user pointer. */
  predicate Concerns(e: Event, ptr: nat) {
    !e.EMalloc? && e.ptr == ptr
  }

  /** A live block stays where it is until its own pointer is freed or reallocated. */
  lemma {:induction false} LiveUntilFreed(h: Heap, es: seq<Event>, b: Block)
    requires AllLegal(es) && b in h.live
    requires forall i :: 0 <= i < |es| ==> !Concerns(es[i], b.addr + HEADER_SIZE)
    ensures b in Run(h, es).live
    decreases es
  {
    hide Malloc, Free;
    if es != [] {
      var e := es[0];
      if e.EFree? {
        FreeKeepsLive(h, e.ptr, b);
      } else {
        MallocKeepsLive(h, e.n, b);
      }
      if e.ERealloc? {
        FreeKeepsLive(h, e.ptr, b);
        FreeKeepsLive(Malloc(h, e.n).0, e.ptr, b);
      }
      assert !Concerns(es[0], b.addr + HEADER_SIZE);
      LiveUntilFreed(Step(h, e), es[1..], b);
    }
  }

  // ----- the split test as the code computes it ---------------------------------------------

  /** split_block's test on 64-bit unsigned numbers. */
  predicate SplitsAsWritten(b: Block, size: nat) {
    (b.size - size - BLOCK_HEADER) % TWO64 >= MIN_BLOCK_SIZE
  }

  /**
   * The unsigned subtraction wraps for blocks that fit too tightly: the text then
   * splits off a block that is not there.  It agrees with the model exactly when
   * the block has room for another header.
   */
  lemma SplitAsWritten(b: Block, size: nat)
    requires Fits(b, size) && b.size < TWO64
    ensures (SplitsAsWritten(b, size) <==> Rest(b, size) != []) <==> b.size >= size + BLOCK_HEADER
  {
  }

  /**
   * The input: the first allocation takes the whole heap.  Nothing is left to split
   * off, but the text does split: the new header starts at the heap's end and the
   * free counter ends at -40 where the model has -16.
   */
  lemma ExactFitAsWritten(lo: nat, hi: nat)
    requires 0 < lo && lo + BLOCK_HEADER < hi < TWO64 && lo % MEM_ALIGNMENT == 0 && hi % MEM_ALIGNMENT == 0
    ensures var h := Init(lo, hi);
            var b := h.free[0];
            && Malloc(h, b.size) == (Carve(h, 0, b.size), lo + HEADER_SIZE)
            && SplitsAsWritten(b, b.size) && Rest(b, b.size) == []
            && b.addr + BLOCK_HEADER + b.size == hi
            && Malloc(h, b.size).0.freeMem == -16
            && h.freeMem - BLOCK_HEADER - (b.size + HEADER_SIZE) == -40
  {
    hide AlignUp;
    var h := Init(lo, hi);
    var n := h.free[0].size;
    EightFold(0, hi, lo);
    AlignedFixed(n);
    assert BestFit(h.free, n) == Some(0);
  }

  lemma AlignedFixed(n: nat)
    requires n % 8 == 0 && n <= TWO64 - 8
    ensures AlignUp(n) == n
  {
    hide AlignUp;
    var r := AlignUp(n);
    assert n <= r < n + 8;
  }

  /** Sizes above 2^64 - 8 round up to 0: kmalloc succeeds whenever any block is free, with no room for its user. */
  lemma HugeSizesWrap(h: Heap, n: nat)
    requires TWO64 - 8 < n < TWO64 && forall i :: 0 <= i < |h.free| ==> h.free[i].addr > 0
    ensures Malloc(h, n).1 != 0 <==> h.free != []
    ensures h.free != [] ==> Malloc(h, n).0.live != [] && Malloc(h, n).0.live[0].size == 0
  {
    assert AlignUp(n) == 0;
    if h.free != [] { assert Fits(h.free[0], 0); }
  }
}
