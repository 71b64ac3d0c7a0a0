/**
 * How the heap lies in byte memory: block headers, the free list threaded
 * through them, and which bytes the allocator's writes may change.
 *
 * A header holds size (offset 0), magic (8), used (9) and next (16).
 */
module HeapMemory {
  import opened Bytes
  import opened HeapModel

  const BLOCK_MAGIC: Byte := 0xAB

  /** Address of the `i`-th block of a list, 0 past its end. */
  function AddrAt(xs: seq<Block>, i: nat): (a: nat) {
    if i < |xs| then xs[i].addr else 0
  }

  /** The header of a free block whose list successor is at `next`. */
  ghost predicate Node(m: seq<Byte>, b: Block, next: nat) {
    && b.addr + BLOCK_HEADER <= |m|
    && Word(m, b.addr) == b.size
    && m[b.addr + 8] == BLOCK_MAGIC
    && Word(m, b.addr + 16) == next
  }

  ghost predicate FreeList(m: seq<Byte>, head: nat, xs: seq<Block>) {
    head == AddrAt(xs, 0) && forall i :: 0 <= i < |xs| ==> Node(m, xs[i], AddrAt(xs, i + 1))
  }

  /** The header of an allocated block. */
  ghost predicate Owned(m: seq<Byte>, b: Block) {
    && b.addr + BLOCK_HEADER <= |m|
    && Word(m, b.addr) == b.size
    && m[b.addr + 8] == BLOCK_MAGIC
    && m[b.addr + 9] == 1
  }

  ghost predicate AllOwned(m: seq<Byte>, ys: seq<Block>) {
    forall j :: 0 <= j < |ys| ==> Owned(m, ys[j])
  }

  // ----- which bytes change ------------------------------------------------------

  /** Only the header at `a` differs. */
  ghost predicate HeaderOnly(m: seq<Byte>, m': seq<Byte>, a: nat) {
    |m'| == |m| && forall i :: 0 <= i < |m| && !(a <= i < a + BLOCK_HEADER) ==> m'[i] == m[i]
  }

  /** Only bytes covered by the blocks `xs` differ. */
  ghost predicate KeptOutside(m: seq<Byte>, m': seq<Byte>, xs: seq<Block>) {
    |m'| == |m| && forall i :: 0 <= i < |m| && !Covered(xs, i) ==> m'[i] == m[i]
  }

  lemma HeaderWithin(m: seq<Byte>, m': seq<Byte>, xs: seq<Block>, k: nat)
    requires k < |xs| && HeaderOnly(m, m', xs[k].addr)
    ensures KeptOutside(m, m', xs)
  {
    forall i | 0 <= i < |m| && !Covered(xs, i) ensures m'[i] == m[i] {
      assert !Covers(xs[k], i);
    }
  }

  lemma KeptTwice(m1: seq<Byte>, m2: seq<Byte>, m3: seq<Byte>, xs: seq<Block>, ys: seq<Block>)
    requires KeptOutside(m1, m2, xs) && KeptOutside(m2, m3, ys)
    requires forall a :: Covered(ys, a) ==> Covered(xs, a)
    ensures KeptOutside(m1, m3, xs)
  {
  }

  lemma NodeKept(m: seq<Byte>, m': seq<Byte>, a: nat, b: Block, next: nat)
    requires HeaderOnly(m, m', a) && Node(m, b, next)
    requires b.addr + BLOCK_HEADER <= a || a + BLOCK_HEADER <= b.addr
    ensures Node(m', b, next)
  {
    assert m'[b.addr..b.addr + 8] == m[b.addr..b.addr + 8];
    assert m'[b.addr + 16..b.addr + 16 + 8] == m[b.addr + 16..b.addr + 16 + 8];
  }

  lemma OwnedKept(m: seq<Byte>, m': seq<Byte>, xs: seq<Block>, b: Block)
    requires KeptOutside(m, m', xs) && Owned(m, b) && ApartFrom(b, xs)
    ensures Owned(m', b)
  {
    BlockKept(m, m', xs, b, b.addr, b.addr + BLOCK_HEADER);
    assert m'[b.addr..b.addr + 8] == m'[b.addr..b.addr + BLOCK_HEADER][..8];
    assert m[b.addr..b.addr + 8] == m[b.addr..b.addr + BLOCK_HEADER][..8];
    assert m'[b.addr + 8] == m'[b.addr..b.addr + BLOCK_HEADER][8] &&
        m'[b.addr + 9] == m'[b.addr..b.addr + BLOCK_HEADER][9];
  }

  /** Bytes of a block apart from `xs` survive. */
  lemma BlockKept(m: seq<Byte>, m': seq<Byte>, xs: seq<Block>, b: Block, lo: nat, hi: nat)
    requires KeptOutside(m, m', xs) && ApartFrom(b, xs)
    requires b.addr <= lo <= hi <= End(b) && hi <= |m|
    ensures m'[lo..hi] == m[lo..hi]
  {
    forall i | lo <= i < hi ensures m'[i] == m[i] {
      forall j | 0 <= j < |xs| ensures !Covers(xs[j], i) {
        assert Apart(b, xs[j]);
      }
    }
  }

  lemma AllOwnedKept(m: seq<Byte>, m': seq<Byte>, xs: seq<Block>, ys: seq<Block>)
    requires KeptOutside(m, m', xs) && AllOwned(m, ys) && Cross(ys, xs)
    ensures AllOwned(m', ys)
  {
    forall j | 0 <= j < |ys| ensures Owned(m', ys[j]) {
      OwnedKept(m, m', xs, ys[j]);
    }
  }

  // ----- header writes --------------------------------------------------------------

  lemma PutSize(m: seq<Byte>, a: nat, v: nat)
    requires a + BLOCK_HEADER <= |m| && v < TWO64
    ensures var m' := PutWord(m, a, v);
            && HeaderOnly(m, m', a) && Word(m', a) == v
            && m'[a + 8] == m[a + 8] && m'[a + 9] == m[a + 9] && Word(m', a + 16) == Word(m, a + 16)
  {
    WordPut(m, a, v);
    PutOutside(m, a, Encode(v, 8), a + 16, a + 24);
  }

  lemma PutNext(m: seq<Byte>, a: nat, v: nat)
    requires a + BLOCK_HEADER <= |m| && v < TWO64
    ensures var m' := PutWord(m, a + 16, v);
            && HeaderOnly(m, m', a) && Word(m', a + 16) == v
            && m'[a + 8] == m[a + 8] && m'[a + 9] == m[a + 9] && Word(m', a) == Word(m, a)
  {
    WordPut(m, a + 16, v);
    PutOutside(m, a + 16, Encode(v, 8), a, a + 8);
  }

  lemma PutMark(m: seq<Byte>, a: nat, o: nat, v: Byte)
    requires a + BLOCK_HEADER <= |m| && 8 <= o <= 9
    ensures var m' := Put(m, a + o, [v]);
            && HeaderOnly(m, m', a) && m'[a + o] == v
            && (o == 8 ==> m'[a + 9] == m[a + 9]) && (o == 9 ==> m'[a + 8] == m[a + 8])
            && Word(m', a) == Word(m, a) && Word(m', a + 16) == Word(m, a + 16)
  {
    PutOutside(m, a + o, [v], a, a + 8);
    PutOutside(m, a + o, [v], a + 16, a + 24);
  }

  lemma HeaderTwice(m1: seq<Byte>, m2: seq<Byte>, m3: seq<Byte>, a: nat)
    requires HeaderOnly(m1, m2, a) && HeaderOnly(m2, m3, a)
    ensures HeaderOnly(m1, m3, a)
  {
  }

  // ----- edits of the free list ---------------------------------------------------------

  /** Addresses of apart blocks are a header's length apart. */
  lemma HeadersApart(xs: seq<Block>, i: nat, k: nat)
    requires Pairwise(xs) && i < |xs| && k < |xs| && i != k
    ensures xs[i].addr + BLOCK_HEADER <= xs[k].addr || xs[k].addr + BLOCK_HEADER <= xs[i].addr
  {
    assert Apart(xs[if i < k then i else k], xs[if i < k then k else i]);
  }

  /** Joining positions `k` and `k + 1` in the header of `k`. */
  lemma ListJoin(m: seq<Byte>, m': seq<Byte>, head: nat, xs: seq<Block>, k: nat)
    requires FreeList(m, head, xs) && Pairwise(xs) && k + 1 < |xs| && HeaderOnly(m, m', xs[k].addr)
    requires Node(m', Joined(xs[k], xs[k + 1]), AddrAt(xs, k + 2))
    ensures FreeList(m', head, xs[..k] + [Joined(xs[k], xs[k + 1])] + xs[k + 2..])
  {
    hide Node, HeaderOnly, Pairwise;
    var ys := xs[..k] + [Joined(xs[k], xs[k + 1])] + xs[k + 2..];
    forall i | 0 <= i < |ys| ensures Node(m', ys[i], AddrAt(ys, i + 1)) {
      if i != k {
        var o := if i < k then i else i + 1;
        assert ys[i] == xs[o] && AddrAt(ys, i + 1) == AddrAt(xs, o + 1);
        HeadersApart(xs, o, k);
        NodeKept(m, m', xs[k].addr, xs[o], AddrAt(xs, o + 1));
      } else {
        assert AddrAt(ys, k + 1) == AddrAt(xs, k + 2);
      }
    }
  }

  /** Unlinking position `k` by writing its predecessor's `next`. */
  lemma ListUnlink(m: seq<Byte>, m': seq<Byte>, head: nat, xs: seq<Block>, k: nat)
    requires FreeList(m, head, xs) && Pairwise(xs) && 0 < k < |xs| && HeaderOnly(m, m', xs[k - 1].addr)
    requires Node(m', xs[k - 1], AddrAt(xs, k + 1))
    ensures FreeList(m', head, Drop(xs, k))
  {
    hide Node, HeaderOnly, Pairwise;
    var ys := Drop(xs, k);
    forall i | 0 <= i < |ys| ensures Node(m', ys[i], AddrAt(ys, i + 1)) {
      if i != k - 1 {
        var o := if i < k then i else i + 1;
        assert ys[i] == xs[o] && AddrAt(ys, i + 1) == AddrAt(xs, o + 1);
        HeadersApart(xs, o, k - 1);
        NodeKept(m, m', xs[k - 1].addr, xs[o], AddrAt(xs, o + 1));
      } else {
        assert AddrAt(ys, k) == AddrAt(xs, k + 1);
      }
    }
  }

  /** Unlinking the head takes no write. */
  lemma ListUnlinkHead(m: seq<Byte>, head: nat, xs: seq<Block>)
    requires FreeList(m, head, xs) && xs != []
    ensures FreeList(m, AddrAt(xs, 1), Drop(xs, 0))
  {
    hide Node, HeaderOnly, Pairwise;
    var ys := Drop(xs, 0);
    assert ys == xs[1..];
    forall i | 0 <= i < |ys| ensures Node(m, ys[i], AddrAt(ys, i + 1)) {
      assert Node(m, xs[i + 1], AddrAt(xs, i + 2));
    }
  }

  /** Pushing block `b` in front of the list. */
  lemma ListPush(m: seq<Byte>, m': seq<Byte>, head: nat, xs: seq<Block>, b: Block)
    requires FreeList(m, head, xs) && HeaderOnly(m, m', b.addr) && ApartFrom(b, xs) && Node(m', b, head)
    ensures FreeList(m', b.addr, [b] + xs)
  {
    hide Node, HeaderOnly, Pairwise;
    var ys := [b] + xs;
    forall i | 0 <= i < |ys| ensures Node(m', ys[i], AddrAt(ys, i + 1)) {
      if i > 0 {
        assert Apart(b, xs[i - 1]) && AddrAt(ys, i + 1) == AddrAt(xs, i);
        NodeKept(m, m', b.addr, xs[i - 1], AddrAt(xs, i));
      }
    }
  }

  /** The list while a block is split: position `k` becomes two blocks. */
  function SplitFree(xs: seq<Block>, k: nat, size: nat): (r: seq<Block>)
    requires k < |xs| && Fits(xs[k], size)
  {
    var rest := Rest(xs[k], size);
    if rest == [] then xs else xs[..k] + [Block(xs[k].addr, size)] + rest + xs[k + 1..]
  }

  /** The rest of block `k` keeps a header's length from the other headers. */
  lemma RestApart(xs: seq<Block>, k: nat, size: nat, o: nat)
    requires Pairwise(xs) && k < |xs| && o < |xs| && o != k && Fits(xs[k], size) && Rest(xs[k], size) != []
    ensures var c := Rest(xs[k], size)[0]; xs[o].addr + BLOCK_HEADER <= c.addr || c.addr + BLOCK_HEADER <= xs[o].addr
    ensures xs[o].addr + BLOCK_HEADER <= xs[k].addr || xs[k].addr + BLOCK_HEADER <= xs[o].addr
  {
    assert Apart(xs[if o < k then o else k], xs[if o < k then k else o]);
  }

  /** Splitting position `k`: first the new block's header, then the old one's. */
  lemma ListSplit(m: seq<Byte>, m1: seq<Byte>, m2: seq<Byte>, head: nat, xs: seq<Block>, k: nat, size: nat)
    requires FreeList(m, head, xs) && Pairwise(xs) && k < |xs| && Fits(xs[k], size) && Rest(xs[k], size) != []
    requires HeaderOnly(m, m1, Rest(xs[k], size)[0].addr) && HeaderOnly(m1, m2, xs[k].addr)
    requires Node(m1, Rest(xs[k], size)[0], AddrAt(xs, k + 1))
    requires Node(m2, Block(xs[k].addr, size), Rest(xs[k], size)[0].addr)
    ensures FreeList(m2, head, SplitFree(xs, k, size))
  {
    hide Node, HeaderOnly, Pairwise;
    var ys := SplitFree(xs, k, size);
    var c := Rest(xs[k], size)[0];
    forall i | 0 <= i < |ys| ensures Node(m2, ys[i], AddrAt(ys, i + 1)) {
      if i == k {
        assert AddrAt(ys, k + 1) == c.addr;
      } else if i == k + 1 {
        assert AddrAt(ys, k + 2) == AddrAt(xs, k + 1);
        NodeKept(m1, m2, xs[k].addr, c, AddrAt(xs, k + 1));
      } else {
        var o := if i < k then i else i - 1;
        assert ys[i] == xs[o] && AddrAt(ys, i + 1) == AddrAt(xs, o + 1);
        RestApart(xs, k, size, o);
        NodeKept(m, m1, c.addr, xs[o], AddrAt(xs, o + 1));
        NodeKept(m1, m2, xs[k].addr, xs[o], AddrAt(xs, o + 1));
      }
    }
  }

  /** Inserting a block that is apart from all others. */
  lemma InsertPairwise(xs: seq<Block>, k: nat, b: Block)
    requires Pairwise(xs) && k <= |xs| && ApartFrom(b, xs)
    ensures Pairwise(xs[..k] + [b] + xs[k..])
  {
    var ys := xs[..k] + [b] + xs[k..];
    forall i, j | 0 <= i < j < |ys| ensures Apart(ys[i], ys[j]) {
      var oi, oj := if i < k then i else i - 1, if j < k then j else j - 1;
      assert i != k ==> ys[i] == xs[oi];
      assert j != k ==> ys[j] == xs[oj];
      assert i != k && j != k ==> Apart(xs[oi], xs[oj]);
    }
  }

  /** The split list is the carved list with the allocated part put in. */
  lemma SplitShape(xs: seq<Block>, k: nat, size: nat)
    requires k < |xs| && Fits(xs[k], size)
    ensures k < |SplitFree(xs, k, size)| && Drop(SplitFree(xs, k, size), k) == CarvedFree(xs, k, size)
    ensures SplitFree(xs, k, size)[k].addr == xs[k].addr
    ensures Rest(xs[k], size) != [] ==>
              var cs := CarvedFree(xs, k, size);
              k <= |cs| && SplitFree(xs, k, size) == cs[..k] + [Block(xs[k].addr, size)] + cs[k..]
  {
  }

  /** The split list is apart. */
  lemma SplitApart(xs: seq<Block>, k: nat, size: nat)
    requires Pairwise(xs) && k < |xs| && Fits(xs[k], size)
    ensures Pairwise(SplitFree(xs, k, size))
    ensures k < |SplitFree(xs, k, size)| && Drop(SplitFree(xs, k, size), k) == CarvedFree(xs, k, size)
    ensures SplitFree(xs, k, size)[k].addr == xs[k].addr
  {
    hide Pairwise, CarvedFree, Drop;
    SplitShape(xs, k, size);
    if Rest(xs[k], size) != [] {
      CarvePairwise(xs, k, size);
      InsertPairwise(CarvedFree(xs, k, size), k, Block(xs[k].addr, size));
    }
  }

  lemma SplitCovers(xs: seq<Block>, k: nat, size: nat, a: nat)
    requires k < |xs| && Fits(xs[k], size) && Covered(SplitFree(xs, k, size), a)
    ensures Covered(xs, a)
  {
    var ys := SplitFree(xs, k, size);
    var i :| 0 <= i < |ys| && Covers(ys[i], a);
    var o := if Rest(xs[k], size) == [] || i <= k then i else i - 1;
    assert Covers(xs[o], a);
  }

  // ----- the user's bytes ----------------------------------------------------------------------

  /** The bytes of a block that belong to its user. */
  function Content(m: seq<Byte>, b: Block): (r: seq<Byte>)
    requires End(b) <= |m|
    ensures |r| == b.size
  {
    m[b.addr + HEADER_SIZE..b.addr + HEADER_SIZE + b.size]
  }

  lemma ContentKept(m: seq<Byte>, m': seq<Byte>, xs: seq<Block>, b: Block)
    requires KeptOutside(m, m', xs) && ApartFrom(b, xs) && End(b) <= |m|
    ensures Content(m', b) == Content(m, b)
  {
    BlockKept(m, m', xs, b, b.addr + HEADER_SIZE, b.addr + HEADER_SIZE + b.size);
  }

  lemma NodeApart(m: seq<Byte>, m': seq<Byte>, xs: seq<Block>, b: Block, next: nat)
    requires KeptOutside(m, m', xs) && Node(m, b, next) && ApartFrom(b, xs)
    ensures Node(m', b, next)
  {
    BlockKept(m, m', xs, b, b.addr, b.addr + 8);
    BlockKept(m, m', xs, b, b.addr + 8, b.addr + 9);
    BlockKept(m, m', xs, b, b.addr + 16, b.addr + 24);
    assert m'[b.addr + 8..b.addr + 9][0] == m[b.addr + 8..b.addr + 9][0];
  }

  /** A write inside the user's bytes of a block touches that block only, and not its header. */
  lemma UserWriteOwn(m: seq<Byte>, b: Block, a: nat, bs: seq<Byte>)
    requires End(b) <= |m| && b.addr + HEADER_SIZE <= a && a + |bs| <= b.addr + HEADER_SIZE + b.size
    ensures KeptOutside(m, Put(m, a, bs), [b])
    ensures Owned(m, b) ==> Owned(Put(m, a, bs), b)
  {
    var m' := Put(m, a, bs);
    forall i | 0 <= i < |m| && !Covered([b], i) ensures m'[i] == m[i] {
      assert !Covers([b][0], i);
    }
    PutOutside(m, a, bs, b.addr, b.addr + 8);
  }

  /** Nor does it disturb any other header. */
  lemma UserWrite(m: seq<Byte>, head: nat, free: seq<Block>, live: seq<Block>, k: nat, a: nat, bs: seq<Byte>)
    requires FreeList(m, head, free) && AllOwned(m, live) && Cross(free, live) && Pairwise(live)
    requires k < |live| && live[k].addr + HEADER_SIZE <= a && a + |bs| <= live[k].addr + HEADER_SIZE + live[k].size
    requires End(live[k]) <= |m|
    ensures var m' := Put(m, a, bs);
            FreeList(m', head, free) && AllOwned(m', live) && KeptOutside(m, m', [live[k]])
  {
    hide Put, Node, Owned, KeptOutside;
    var b, m' := live[k], Put(m, a, bs);
    UserWriteOwn(m, b, a, bs);
    forall i | 0 <= i < |free| ensures Node(m', free[i], AddrAt(free, i + 1)) {
      assert ApartFrom(free[i], live) && Apart(free[i], live[k]);
      NodeApart(m, m', [b], free[i], AddrAt(free, i + 1));
    }
    forall j | 0 <= j < |live| ensures Owned(m', live[j]) {
      if j != k {
        assert Apart(live[if j < k then j else k], live[if j < k then k else j]);
        OwnedKept(m, m', [b], live[j]);
      }
    }
  }
}
