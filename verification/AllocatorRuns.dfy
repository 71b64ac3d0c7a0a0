/**
 * Runs in which the owners of live blocks write to them between calls of the
 * allocator: every byte an owner wrote is still there until its block is freed,
 * wherever krealloc moves it.
 */
module AllocatorRuns {
  import opened Bytes
  import opened HeapModel
  import opened HeapMemory
  import opened Allocator

  /** A call, or a write of `bytes` at `offset` into the block at `ptr`. */
  datatype Act = Call(e: Event) | Write(ptr: nat, offset: nat, bytes: seq<Byte>)

  /** Writes stay inside a live payload. */
  predicate Allowed(h: Heap, a: Act) {
    match a
    case Call(e) => Proper(h.live, e)
    case Write(ptr, offset, bytes) =>
      Find(h.live, ptr).Some? && offset + |bytes| <= h.live[Find(h.live, ptr).value].size
  }

  function StepAct(h: Heap, a: Act): (r: Heap)
    requires Allowed(h, a)
  {
    match a
    case Call(e) => Step(h, e)
    case Write(_, _, _) => h
  }

  predicate AllowedRun(h: Heap, acts: seq<Act>)
    decreases acts
  {
    acts == [] || (Allowed(h, acts[0]) && AllowedRun(StepAct(h, acts[0]), acts[1..]))
  }

  function RunActs(h: Heap, acts: seq<Act>): (r: Heap)
    requires AllowedRun(h, acts)
    decreases acts
  {
    if acts == [] then h else RunActs(StepAct(h, acts[0]), acts[1..])
  }

  // ----- what the owners wrote ---------------------------------------------------

  function Forget(known: map<nat, Byte>, ptr: nat, size: nat): (r: map<nat, Byte>) {
    map a | a in known && !(ptr <= a < ptr + size) :: known[a]
  }

  /** Where the byte at `a` in the block at `p` was in the block at `ptr`. */
  function Before(ptr: nat, p: nat, a: int): (i: int) {
    ptr + (a - p)
  }

  /** The bytes known of `size` addresses from `ptr`, moved to `p`. */
  function Moved(known: map<nat, Byte>, ptr: nat, size: nat, p: nat): (r: map<nat, Byte>) {
    map a | p <= a < p + size && Before(ptr, p, a) in known :: known[Before(ptr, p, a)]
  }

  function ByteAt(bytes: seq<Byte>, at: nat, a: nat): (v: Byte)
    requires at <= a < at + |bytes|
  {
    bytes[a - at]
  }

  function Written(at: nat, bytes: seq<Byte>): (r: map<nat, Byte>) {
    map a | at <= a < at + |bytes| :: ByteAt(bytes, at, a)
  }

  /** The bytes last written by their owners, by address: freeing forgets them, krealloc takes them along. */
  function Track(h: Heap, known: map<nat, Byte>, a: Act): (r: map<nat, Byte>)
    requires Allowed(h, a)
  {
    match a
    case Write(ptr, offset, bytes) => known + Written(ptr + offset, bytes)
    case Call(EMalloc(_)) => known
    case Call(EFree(ptr)) =>
      if Find(h.live, ptr).None? then known else Forget(known, ptr, h.live[Find(h.live, ptr).value].size)
    case Call(ERealloc(ptr, n)) =>
      if ptr == 0 || Find(h.live, ptr).None? then known
      else
        var size := h.live[Find(h.live, ptr).value].size;
        if n == 0 then Forget(known, ptr, size)
        else if size >= n || Malloc(h, n).1 == 0 then known
        else Forget(known, ptr, size) + Moved(known, ptr, size, Malloc(h, n).1)
  }

  function TrackRun(h: Heap, known: map<nat, Byte>, acts: seq<Act>): (r: map<nat, Byte>)
    requires AllowedRun(h, acts)
    decreases acts
  {
    if acts == [] then known else TrackRun(StepAct(h, acts[0]), Track(h, known, acts[0]), acts[1..])
  }

  predicate Mine(b: Block, a: nat) {
    b.addr + HEADER_SIZE <= a < b.addr + HEADER_SIZE + b.size
  }

  ghost predicate InPayload(live: seq<Block>, a: nat) {
    exists k :: 0 <= k < |live| && Mine(live[k], a)
  }

  /** Memory holds the known bytes, and they lie in live payloads. */
  ghost predicate Remembers(h: Heap, m: seq<Byte>, known: map<nat, Byte>) {
    forall a :: a in known ==> a < |m| && m[a] == known[a] && InPayload(h.live, a)
  }

  // ----- one act ---------------------------------------------------------------------

  lemma PayloadByte(m: seq<Byte>, m': seq<Byte>, b: Block, a: nat)
    requires Mine(b, a) && End(b) <= |m| == |m'| && Content(m', b) == Content(m, b)
    ensures m'[a] == m[a]
  {
    assert Content(m, b)[a - b.addr - HEADER_SIZE] == m[a];
    assert Content(m', b)[a - b.addr - HEADER_SIZE] == m'[a];
  }

  /** A known byte of a block that a call spares is remembered after it. */
  lemma SparedByte(h: Heap, m: seq<Byte>, m': seq<Byte>, e: Event, k: nat, a: nat)
    requires Legal(e) && Spared(h.live, m, m', [e]) && k < |h.live| && Mine(h.live[k], a)
    requires !Concerns(e, h.live[k].addr + HEADER_SIZE)
    ensures a < |m| && m'[a] == m[a] && InPayload(Step(h, e).live, a)
  {
    hide Step;
    var b := h.live[k];
    PayloadByte(m, m', b, a);
    LiveUntilFreed(h, [e], b);
    OneStep(h, e);
    var j :| 0 <= j < |Step(h, e).live| && Step(h, e).live[j] == b;
    assert Mine(Step(h, e).live[j], a);
  }

  /** What a call does not move is remembered. */
  lemma CallRemembers(h: Heap, m: seq<Byte>, m': seq<Byte>, e: Event, known: map<nat, Byte>)
    requires Inv(h) && Legal(e) && Remembers(h, m, known) && Spared(h.live, m, m', [e])
    requires !e.EMalloc? && Find(h.live, e.ptr).Some? ==>
               forall a :: a in known ==> !Mine(h.live[Find(h.live, e.ptr).value], a)
    ensures Remembers(Step(h, e), m', known)
  {
    hide Step, Spared;
    forall a | a in known ensures a < |m'| && m'[a] == known[a] && InPayload(Step(h, e).live, a) {
      var k :| 0 <= k < |h.live| && Mine(h.live[k], a);
      if Concerns(e, h.live[k].addr + HEADER_SIZE) { FindAt(h.live, k); }
      SameLength(h.live, m, m', [e]);
      SparedByte(h, m, m', e, k, a);
    }
  }

  lemma SameLength(live: seq<Block>, m: seq<Byte>, m': seq<Byte>, es: seq<Event>)
    requires Spared(live, m, m', es)
    ensures |m| == |m'|
  {
  }

  lemma FreeRemembers(h: Heap, m: seq<Byte>, m': seq<Byte>, e: Event, known: map<nat, Byte>)
    requires Inv(h) && Legal(e) && !e.EMalloc? && Remembers(h, m, known) && Spared(h.live, m, m', [e])
    requires Find(h.live, e.ptr).Some?
    ensures Remembers(Step(h, e), m', Forget(known, e.ptr, h.live[Find(h.live, e.ptr).value].size))
  {
    hide Step, Spared, Inv;
    var k := Find(h.live, e.ptr).value;
    CallRemembers(h, m, m', e, Forget(known, e.ptr, h.live[k].size));
  }

  /** Reading a moved byte through the contents of both blocks. */
  lemma MovedBytes(m: seq<Byte>, m': seq<Byte>, known: map<nat, Byte>, ptr: nat, size: nat, p: nat)
    requires p + size <= |m'| && ptr + size <= |m| == |m'| && m'[p..p + size] == m[ptr..ptr + size]
    requires forall a :: a in known ==> a < |m| && m[a] == known[a]
    ensures forall a :: a in Moved(known, ptr, size, p) ==> a < |m'| && m'[a] == Moved(known, ptr, size, p)[a]
  {
    forall a | a in Moved(known, ptr, size, p) ensures a < |m'| && m'[a] == Moved(known, ptr, size, p)[a] {
      assert m'[p..p + size][a - p] == m'[a] && m[ptr..ptr + size][a - p] == m[Before(ptr, p, a)];
    }
  }

  /** A successful move leaves the new block live. */
  lemma MovedLive(h: Heap, ptr: nat, n: nat)
    requires Inv(h) && ptr != 0 && 0 < n <= TWO64 - 8 && Find(h.live, ptr).Some?
    requires h.live[Find(h.live, ptr).value].size < n && Malloc(h, n).1 != 0
    ensures var p := Malloc(h, n).1;
            && p != ptr && p >= HEADER_SIZE && AlignUp(n) >= n
            && Realloc(h, ptr, n).1 == p && Block(p - HEADER_SIZE, AlignUp(n)) in Realloc(h, ptr, n).0.live
  {
    hide Malloc, AlignUp, Inv;
    var k := Find(h.live, ptr).value;
    var (h1, p) := Malloc(h, n);
    MallocWithin(h, n);
    AlignedSize(n);
    InvMalloc(h, n);
    FirstApart(h1, k + 1);
    FreeKeepsLive(h1, ptr, h1.live[0]);
  }

  lemma FirstApart(h: Heap, k: nat)
    requires Inv(h) && 0 < k < |h.live|
    ensures h.live[0].addr != h.live[k].addr
  {
    OthersElsewhere(h.live, 0);
  }

  lemma ReallocRemembers(h: Heap, m: seq<Byte>, m': seq<Byte>, ptr: nat, n: nat, known: map<nat, Byte>)
    requires Inv(h) && ptr != 0 && 0 < n <= TWO64 - 8 && Find(h.live, ptr).Some?
    requires var size := h.live[Find(h.live, ptr).value].size;
             && size < n && Malloc(h, n).1 != 0
             && Malloc(h, n).1 + size <= |m| && ptr + size <= |m| == |m'|
             && m'[Malloc(h, n).1..Malloc(h, n).1 + size] == m[ptr..ptr + size]
    requires Remembers(h, m, known) && Spared(h.live, m, m', [ERealloc(ptr, n)])
    ensures Remembers(Step(h, ERealloc(ptr, n)), m', Track(h, known, Call(ERealloc(ptr, n))))
  {
    hide Malloc, Spared, Inv, Free, Moved, Forget;
    var e := ERealloc(ptr, n);
    var size, p := h.live[Find(h.live, ptr).value].size, Malloc(h, n).1;
    FreeRemembers(h, m, m', e, known);
    MovedBytes(m, m', known, ptr, size, p);
    MovedLive(h, ptr, n);
    var live := Step(h, e).live;
    var j :| 0 <= j < |live| && live[j] == Block(p - HEADER_SIZE, AlignUp(n));
    forall a | a in Moved(known, ptr, size, p) ensures InPayload(live, a) {
      MovedRange(known, ptr, size, p, a);
      assert Mine(live[j], a);
    }
  }

  lemma MovedRange(known: map<nat, Byte>, ptr: nat, size: nat, p: nat, a: nat)
    requires a in Moved(known, ptr, size, p)
    ensures p <= a < p + size
  {
  }

  /** A write is remembered, and no other known byte changes. */
  lemma WriteRemembers(h: Heap, m: seq<Byte>, ptr: nat, offset: nat, bytes: seq<Byte>, known: map<nat, Byte>)
    requires Remembers(h, m, known) && Allowed(h, Write(ptr, offset, bytes)) && ptr + offset + |bytes| <= |m|
    ensures Remembers(h, Put(m, ptr + offset, bytes), known + Written(ptr + offset, bytes))
  {
    var at, k := ptr + offset, Find(h.live, ptr).value;
    var m', now := Put(m, at, bytes), known + Written(at, bytes);
    forall a | a in now ensures a < |m'| && m'[a] == now[a] && InPayload(h.live, a) {
      if at <= a < at + |bytes| {
        assert a in Written(at, bytes) && Mine(h.live[k], a);
      }
    }
  }

  // ----- the acts in place ------------------------------------------------------------

  /** The owner of live block `k` writes into it. */
  method WriteBytes(m: Manager, ghost k: nat, at: nat, bytes: seq<Byte>)
    requires m.Valid() && k < |m.live| && m.live[k].addr + HEADER_SIZE <= at
    requires at + |bytes| <= m.live[k].addr + HEADER_SIZE + m.live[k].size
    modifies m.mem
    ensures m.Valid() && at + |bytes| <= m.mem.Length
    ensures m.mem[..] == Put(old(m.mem[..]), at, bytes)
  {
    hide FreeList, Pairwise, AllPlaced, AllOwned, Put, Cross;
    m.AllInside();
    ghost var was := m.mem[..];
    GrowFacts(m.Abs(), k);
    FreeApart(m.Abs());
    UserWrite(was, m.freeList, m.free, m.live, k, at, bytes);
    StoreBytes(m.mem, at, bytes);
  }

  lemma FreeApart(h: Heap)
    requires Inv(h)
    ensures Cross(h.free, h.live)
  {
  }

  method StoreBytes(mem: array<Byte>, at: nat, bytes: seq<Byte>)
    requires at + |bytes| <= mem.Length
    modifies mem
    ensures mem[..] == Put(old(mem[..]), at, bytes)
  {
    hide Put;
    ghost var was := mem[..];
    PutMore(was, at, bytes, 0);
    for i := 0 to |bytes|
      invariant mem[..] == Put(was, at, bytes[..i])
    {
      PutMore(was, at, bytes, i);
      mem[at + i] := bytes[i];
    }
    assert bytes[..|bytes|] == bytes;
  }

  lemma PutMore(m: seq<Byte>, at: nat, bytes: seq<Byte>, i: nat)
    requires at + |bytes| <= |m| && i <= |bytes|
    ensures Put(m, at, bytes[..0]) == m
    ensures i < |bytes| ==> Put(m, at, bytes[..i])[at + i := bytes[i]] == Put(m, at, bytes[..i + 1])
  {
    if i < |bytes| { assert bytes[..i + 1] == bytes[..i] + [bytes[i]]; }
  }

  method DoWrite(m: Manager, ptr: nat, offset: nat, bytes: seq<Byte>, ghost known: map<nat, Byte>)
    requires m.Valid() && Allowed(m.Abs(), Write(ptr, offset, bytes)) && Remembers(m.Abs(), m.mem[..], known)
    modifies m.mem
    ensures ptr + offset + |bytes| <= m.mem.Length
    ensures m.Valid() && Remembers(m.Abs(), m.mem[..], Track(m.Abs(), known, Write(ptr, offset, bytes)))
  {
    hide Inv, AllOwned, Remembers, FreeList, Pairwise, AllPlaced, Put;
    ghost var h, was, k := m.Abs(), m.mem[..], Find(m.live, ptr).value;
    WriteBytes(m, k, ptr + offset, bytes);
    WriteRemembers(h, was, ptr, offset, bytes, known);
  }

  method DoCall(m: Manager, e: Event, ghost known: map<nat, Byte>)
    requires m.Valid() && Proper(m.live, e) && Remembers(m.Abs(), m.mem[..], known)
    modifies m, m.mem
    ensures m.Valid() && m.Abs() == Step(old(m.Abs()), e)
    ensures Remembers(m.Abs(), m.mem[..], Track(old(m.Abs()), known, Call(e)))
  {
    hide Inv, AllOwned, Remembers, Malloc, Free, Content, Find, Spared, KeptOutside, FreeList, Pairwise, AllPlaced;
    ghost var h, was := m.Abs(), m.mem[..];
    ValidInv(m);
    if e.ERealloc? && e.ptr != 0 && e.n != 0 {
      DoRealloc(m, e.ptr, e.n, known);
    } else {
      m.Apply(e);
      if e.EMalloc? || Find(h.live, e.ptr).None? {
        CallRemembers(h, was, m.mem[..], e, known);
      } else {
        FreeRemembers(h, was, m.mem[..], e, known);
      }
    }
  }

  /** krealloc of a live block: kept in place, failed, or moved with its bytes. */
  method DoRealloc(m: Manager, ptr: nat, n: nat, ghost known: map<nat, Byte>)
    requires m.Valid() && ptr != 0 && 0 < n && Proper(m.live, ERealloc(ptr, n))
    requires Remembers(m.Abs(), m.mem[..], known)
    modifies m, m.mem
    ensures m.Valid() && m.Abs() == Step(old(m.Abs()), ERealloc(ptr, n))
    ensures Remembers(m.Abs(), m.mem[..], Track(old(m.Abs()), known, Call(ERealloc(ptr, n))))
  {
    hide Inv, AllOwned, Remembers, Malloc, Free, Content, Find, Spared, KeptOutside, FreeList, Pairwise, AllPlaced;
    ghost var h, was := m.Abs(), m.mem[..];
    ValidInv(m);
    ReallocResult(h, ptr, n);
    var r := m.Krealloc(ptr, n);
    if r == 0 {
      StillRemembers(h, m.Abs(), was, m.mem[..], known);
    } else if h.live[Find(h.live, ptr).value].size < n {
      SparedBy(h.live, was, m.mem[..], ERealloc(ptr, n));
      ReallocRemembers(h, was, m.mem[..], ptr, n, known);
    }
  }

  /** The result tells the three ways apart. */
  lemma ReallocResult(h: Heap, ptr: nat, n: nat)
    requires Inv(h) && ptr != 0 && 0 < n <= TWO64 - 8 && Find(h.live, ptr).Some?
    ensures var size, r := h.live[Find(h.live, ptr).value].size, Realloc(h, ptr, n).1;
            && (size >= n ==> r == ptr && Realloc(h, ptr, n).0 == h)
            && (size < n ==> r == Malloc(h, n).1 && (r != 0 ==> r != ptr))
  {
    hide Malloc, Inv, Free;
    if h.live[Find(h.live, ptr).value].size < n && Malloc(h, n).1 != 0 { MovedLive(h, ptr, n); }
  }

  lemma StillRemembers(h: Heap, h': Heap, m: seq<Byte>, m': seq<Byte>, known: map<nat, Byte>)
    requires Remembers(h, m, known) && h'.live == h.live && |m'| == |m|
    requires forall j :: 0 <= j < |h.live| ==> End(h.live[j]) <= |m| && Content(m', h.live[j]) == Content(m, h.live[j])
    ensures Remembers(h', m', known)
  {
    forall a | a in known ensures a < |m'| && m'[a] == known[a] && InPayload(h'.live, a) {
      var k :| 0 <= k < |h.live| && Mine(h.live[k], a);
      PayloadByte(m, m', h.live[k], a);
    }
  }

  /** Any act is one step, and memory still holds what the owners wrote. */
  method Do(m: Manager, a: Act, ghost known: map<nat, Byte>)
    requires m.Valid() && Allowed(m.Abs(), a) && Remembers(m.Abs(), m.mem[..], known)
    modifies m, m.mem
    ensures m.Valid() && m.Abs() == StepAct(old(m.Abs()), a)
    ensures Remembers(m.Abs(), m.mem[..], Track(old(m.Abs()), known, a))
  {
    hide Inv, AllOwned, Remembers, Find, FreeList, Pairwise, AllPlaced, Step;
    if a.Write? {
      DoWrite(m, a.ptr, a.offset, a.bytes, known);
    } else {
      DoCall(m, a.e, known);
    }
  }

  lemma ValidInv(m: Manager)
    requires m.Valid()
    ensures Inv(m.Abs()) && m.heapEnd <= m.mem.Length
  {
  }

  /** Whole runs of calls and writes: memory holds, in every live block, what its owner last wrote. */
  method DoAll(m: Manager, acts: seq<Act>, ghost known: map<nat, Byte>)
    requires m.Valid() && AllowedRun(m.Abs(), acts) && Remembers(m.Abs(), m.mem[..], known)
    modifies m, m.mem
    ensures m.Valid() && m.Abs() == RunActs(old(m.Abs()), acts)
    ensures Remembers(m.Abs(), m.mem[..], TrackRun(old(m.Abs()), known, acts))
    decreases acts
  {
    hide Inv, AllOwned, Remembers, FreeList, Pairwise, AllPlaced, StepAct, Track, Allowed;
    if acts != [] {
      ghost var h := m.Abs();
      Do(m, acts[0], known);
      DoAll(m, acts[1..], Track(h, known, acts[0]));
    }
  }

  // ----- what is known after a run ---------------------------------------------------------

  /** The act is about the block with this user pointer. */
  predicate About(a: Act, ptr: nat) {
    match a
    case Call(e) => Concerns(e, ptr)
    case Write(p, _, _) => p == ptr
  }

  lemma PayloadsApart(h: Heap, j: nat, k: nat, a: nat)
    requires Inv(h) && j < |h.live| && k < |h.live| && Mine(h.live[j], a) && Mine(h.live[k], a)
    ensures j == k
  {
    if j != k { OthersElsewhere(h.live, j); }
  }

  lemma ActInv(h: Heap, a: Act)
    requires Inv(h) && Allowed(h, a)
    ensures Inv(StepAct(h, a))
  {
    hide Inv, Step;
    if a.Call? { InvStep(h, a.e); }
  }

  lemma ActKeepsLive(h: Heap, a: Act, b: Block)
    requires Inv(h) && Allowed(h, a) && b in h.live && !About(a, b.addr + HEADER_SIZE)
    ensures b in StepAct(h, a).live
  {
    hide Step, Inv;
    if a.Call? {
      LiveUntilFreed(h, [a.e], b);
      OneStep(h, a.e);
    }
  }

  /** An act about another block leaves the bytes known of `b`. */
  lemma TrackOther(h: Heap, known: map<nat, Byte>, a: Act, k: nat, i: nat)
    requires Inv(h) && Allowed(h, a) && k < |h.live| && Mine(h.live[k], i) && i in known
    requires !About(a, h.live[k].addr + HEADER_SIZE)
    ensures i in Track(h, known, a) && Track(h, known, a)[i] == known[i]
  {
    hide Malloc, Inv;
    match a
    case Write(ptr, offset, bytes) =>
      var j := Find(h.live, ptr).value;
      if ptr + offset <= i < ptr + offset + |bytes| { PayloadsApart(h, j, k, i); }
    case Call(EMalloc(_)) =>
    case Call(EFree(ptr)) => ForgetOther(h, known, ptr, k, i);
    case Call(ERealloc(ptr, n)) =>
      ForgetOther(h, known, ptr, k, i);
      if ptr != 0 && 0 < n && Find(h.live, ptr).Some? && Malloc(h, n).1 != 0 &&
         h.live[Find(h.live, ptr).value].size < n
      {
        NotMoved(h, known, ptr, n, k, i);
      }
  }

  lemma ForgetOther(h: Heap, known: map<nat, Byte>, ptr: nat, k: nat, i: nat)
    requires Inv(h) && k < |h.live| && Mine(h.live[k], i) && i in known && ptr != h.live[k].addr + HEADER_SIZE
    ensures Find(h.live, ptr).Some? ==> i in Forget(known, ptr, h.live[Find(h.live, ptr).value].size)
  {
    if Find(h.live, ptr).Some? {
      var j := Find(h.live, ptr).value;
      if Mine(h.live[j], i) { PayloadsApart(h, j, k, i); }
    }
  }

  lemma NotMoved(h: Heap, known: map<nat, Byte>, ptr: nat, n: nat, k: nat, i: nat)
    requires Inv(h) && k < |h.live| && Mine(h.live[k], i) && ptr != 0 && 0 < n <= TWO64 - 8
    requires Find(h.live, ptr).Some? && h.live[Find(h.live, ptr).value].size < n && Malloc(h, n).1 != 0
    ensures i !in Moved(known, ptr, h.live[Find(h.live, ptr).value].size, Malloc(h, n).1)
  {
    hide Malloc, Inv;
    var (h1, p) := Malloc(h, n);
    MallocWithin(h, n);
    AlignedSize(n);
    InvMalloc(h, n);
    if Mine(h1.live[0], i) { PayloadsApart(h1, 0, k + 1, i); }
  }

  /**
   * A written byte stays known with its value through any run that is not about its
   * block: no write to it, no free and no reallocation of it.
   */
  lemma {:induction false} WrittenStays(h: Heap, known: map<nat, Byte>, acts: seq<Act>, b: Block, i: nat)
    requires Inv(h) && AllowedRun(h, acts) && b in h.live && Mine(b, i) && i in known
    requires forall j :: 0 <= j < |acts| ==> !About(acts[j], b.addr + HEADER_SIZE)
    ensures i in TrackRun(h, known, acts) && TrackRun(h, known, acts)[i] == known[i]
    decreases acts
  {
    hide Inv, StepAct, Track, Allowed;
    if acts != [] {
      var k :| 0 <= k < |h.live| && h.live[k] == b;
      assert !About(acts[0], b.addr + HEADER_SIZE);
      TrackOther(h, known, acts[0], k, i);
      ActKeepsLive(h, acts[0], b);
      ActInv(h, acts[0]);
      WrittenStays(StepAct(h, acts[0]), Track(h, known, acts[0]), acts[1..], b, i);
    }
  }

  /**
   * In memory: after a write into a live block and any run that is not about that
   * block, the block holds the bytes written.
   */
  method WriteThenRun(m: Manager, ptr: nat, offset: nat, bytes: seq<Byte>, acts: seq<Act>)
    requires m.Valid() && Allowed(m.Abs(), Write(ptr, offset, bytes)) && AllowedRun(m.Abs(), acts)
    requires forall j :: 0 <= j < |acts| ==> !About(acts[j], ptr)
    modifies m, m.mem
    ensures m.Valid() && m.Abs() == RunActs(old(m.Abs()), acts)
    ensures ptr + offset + |bytes| <= m.mem.Length
    ensures forall a :: ptr + offset <= a < ptr + offset + |bytes| ==> m.mem[a] == ByteAt(bytes, ptr + offset, a)
  {
    hide Inv, AllOwned, FreeList, Pairwise, AllPlaced, Put, Track, AllowedRun, Remembers, ByteAt;
    ghost var h, known := m.Abs(), Track(m.Abs(), map[], Write(ptr, offset, bytes));
    ValidInv(m);
    NothingKnown(h, m.mem[..]);
    DoWrite(m, ptr, offset, bytes, map[]);
    DoAll(m, acts, known);
    forall a | ptr + offset <= a < ptr + offset + |bytes|
      ensures m.mem[a] == ByteAt(bytes, ptr + offset, a)
    {
      ReadBack(h, m.Abs(), m.mem[..], ptr, offset, bytes, acts, a);
    }
  }

  lemma NothingKnown(h: Heap, m: seq<Byte>)
    ensures Remembers(h, m, map[])
  {
  }

  lemma ReadBack(h: Heap, r: Heap, m: seq<Byte>, ptr: nat, offset: nat, bytes: seq<Byte>, acts: seq<Act>, a: nat)
    requires Inv(h) && Allowed(h, Write(ptr, offset, bytes)) && AllowedRun(h, acts)
    requires ptr + offset <= a < ptr + offset + |bytes|
    requires forall j :: 0 <= j < |acts| ==> !About(acts[j], ptr)
    requires Remembers(r, m, TrackRun(h, Track(h, map[], Write(ptr, offset, bytes)), acts))
    ensures a < |m| && m[a] == ByteAt(bytes, ptr + offset, a)
  {
    hide Inv, AllowedRun, TrackRun, About, Find, InPayload;
    var b := h.live[Find(h.live, ptr).value];
    var known := Track(h, map[], Write(ptr, offset, bytes));
    assert a in Written(ptr + offset, bytes) && known[a] == ByteAt(bytes, ptr + offset, a);
    WrittenStays(h, known, acts, b, a);
  }

  // ----- across krealloc -----------------------------------------------------------------------

  predicate Knows(known: map<nat, Byte>, a: int, v: Byte) {
    a >= 0 && a in known && known[a] == v
  }

  /** A successful krealloc of a live block returns the pointer of a live block with its known bytes. */
  lemma TrackMoves(h: Heap, known: map<nat, Byte>, k: nat, ptr: nat, n: nat, i: nat) returns (b: Block)
    requires Inv(h) && k < |h.live| && ptr == h.live[k].addr + HEADER_SIZE && Mine(h.live[k], i) && i in known
    requires Allowed(h, Call(ERealloc(ptr, n))) && 0 < n <= TWO64 - 8 && Realloc(h, ptr, n).1 != 0
    ensures b in Realloc(h, ptr, n).0.live && Realloc(h, ptr, n).1 == b.addr + HEADER_SIZE
    ensures Mine(b, b.addr + HEADER_SIZE + (i - ptr))
    ensures Knows(Track(h, known, Call(ERealloc(ptr, n))), b.addr + HEADER_SIZE + (i - ptr), known[i])
  {
    hide Malloc, Inv, Free, AlignUp, Moved, Forget, Realloc;
    InvLive(h);
    FindAt(h.live, k);
    ReallocResult(h, ptr, n);
    if h.live[k].size >= n {
      b := h.live[k];
    } else {
      MovedLive(h, ptr, n);
      b := Block(Malloc(h, n).1 - HEADER_SIZE, AlignUp(n));
      MovedKnown(known, ptr, h.live[k].size, Malloc(h, n).1, i);
    }
  }

  lemma MovedKnown(known: map<nat, Byte>, ptr: nat, size: nat, p: nat, i: nat)
    requires ptr <= i < ptr + size && i in known
    ensures var r := Forget(known, ptr, size) + Moved(known, ptr, size, p);
            p + (i - ptr) in r && r[p + (i - ptr)] == known[i]
  {
    var a := p + (i - ptr);
    assert Before(ptr, p, a) == i;
    assert a in Moved(known, ptr, size, p);
  }

  /**
   * In memory: after a successful krealloc of a live block, and any run that is not
   * about the block it returned, that block holds the bytes known of the old one.
   */
  method MoveThenRun(m: Manager, ghost k: nat, ptr: nat, n: nat, acts: seq<Act>, ghost known: map<nat, Byte>)
    requires m.Valid() && k < |m.live| && ptr == m.live[k].addr + HEADER_SIZE && 0 < n <= TWO64 - 8
    requires Remembers(m.Abs(), m.mem[..], known) && AllowedRun(m.Abs(), [Call(ERealloc(ptr, n))] + acts)
    requires var p := Realloc(m.Abs(), ptr, n).1;
             p != 0 && forall j :: 0 <= j < |acts| ==> !About(acts[j], p)
    modifies m, m.mem
    ensures m.Valid() && m.Abs() == RunActs(old(m.Abs()), [Call(ERealloc(ptr, n))] + acts)
    ensures var p := Realloc(old(m.Abs()), ptr, n).1;
            forall i :: i in known && Mine(old(m.live[k]), i) ==>
              0 <= p + (i - ptr) < m.mem.Length && m.mem[p + (i - ptr)] == known[i]
  {
    hide Inv, AllOwned, FreeList, Pairwise, AllPlaced, Remembers, Track, Realloc, Allowed;
    ghost var h, move := m.Abs(), [Call(ERealloc(ptr, n))] + acts;
    ghost var p := Realloc(h, ptr, n).1;
    assert move[1..] == acts;
    ValidInv(m);
    DoAll(m, [Call(ERealloc(ptr, n))] + acts, known);
    forall i | i in known && Mine(h.live[k], i)
      ensures 0 <= p + (i - ptr) < m.mem.Length && m.mem[p + (i - ptr)] == known[i]
    {
      MoveReadBack(h, m.Abs(), m.mem[..], k, ptr, n, acts, known, i);
    }
  }

  lemma MoveReadBack(h: Heap, r: Heap, m: seq<Byte>, k: nat, ptr: nat, n: nat, acts: seq<Act>,
      known: map<nat, Byte>, i: nat)
    requires Inv(h) && k < |h.live| && ptr == h.live[k].addr + HEADER_SIZE && Mine(h.live[k], i) && i in known
    requires Allowed(h, Call(ERealloc(ptr, n))) && 0 < n <= TWO64 - 8 && Realloc(h, ptr, n).1 != 0
    requires AllowedRun(StepAct(h, Call(ERealloc(ptr, n))), acts)
    requires forall j :: 0 <= j < |acts| ==> !About(acts[j], Realloc(h, ptr, n).1)
    requires var known' := Track(h, known, Call(ERealloc(ptr, n)));
             Remembers(r, m, TrackRun(StepAct(h, Call(ERealloc(ptr, n))), known', acts))
    ensures var a := Realloc(h, ptr, n).1 + (i - ptr); 0 <= a < |m| && m[a] == known[i]
  {
    hide Inv, About, InPayload, Realloc, Track, Find, Allowed;
    var act := Call(ERealloc(ptr, n));
    var a := Realloc(h, ptr, n).1 + (i - ptr);
    var b := TrackMoves(h, known, k, ptr, n, i);
    ActInv(h, act);
    WrittenStays(StepAct(h, act), Track(h, known, act), acts, b, a);
  }
}
