/** wrapper.h: the malloc family over the allocator, specified by the operations each call performs
    and by what it does to the client's blocks. */
module Wrapper {
  import opened Arith
  import opened Bits
  import opened Memory
  import opened SizeClass
  import opened Heap
  import opened Runs
  import opened Safety
  import opened RunSafety
  import opened Nuaf
  import Layout
  import Machine

  // ----- room for a few more operations

  /** The address ranges and the backing file have room for k small steps and the given pages. */
  ghost predicate Room(a: Heap, k: nat, pages: nat) {
    && |a.page| == NUM_BLOCK_TYPES && a.high + k <= LARGE_PAGE && a.largeHigh + pages <= MAX_PAGE
    && forall t :: 0 <= t < NUM_BLOCK_TYPES ==> |a.page[t]| + k <= 0x200_0000 * PerPage(t)
  }

  function PagesFor(n: nat): nat { if n > LARGEST_BLOCK_SIZE then NumPages(n) else 0 }

  lemma RoomMalloc(a: Heap, n: nat, k: nat, pages: nat)
    requires Good(a) && n < SIGN_BIT && k >= 1 && PagesFor(n) <= pages && Room(a, k, pages)
    ensures Legal(a, Op.Malloc(n)) && Good(DoMalloc(a, n).0)
    ensures Room(DoMalloc(a, n).0, k - 1, pages - PagesFor(n))
  {
    if n <= LARGEST_BLOCK_SIZE { BlockTypeIsLeast(n); }
    StepGood(a, Op.Malloc(n));
  }

  lemma RoomFree(a: Heap, x: int, k: nat, pages: nat)
    requires Good(a) && x != 0 && Disciplined(a, Op.Free(x)) && k >= 1 && Room(a, k, pages)
    ensures Legal(a, Op.Free(x)) && Good(DoFree(a, x)) && Room(DoFree(a, x), k - 1, pages)
  {
    StepGood(a, Op.Free(x));
    if InSmall(a, x) { FreeIs(a, x); }
  }

  /** A write leaves the counters alone. */
  lemma RoomWrite(a: Heap, x: int, b: byte, k: nat, pages: nat)
    requires LiveByte(a, x) && Room(a, k, pages)
    ensures Room(DoWrite(a, x, b), k, pages)
  {
  }

  // ----- blocks by start and index

  /** Byte i of the block at p, and what storing there does. */
  lemma ByteOf(a: Heap, p: int, i: nat)
    requires WF(a) && p in Blocks(a) && i < |Blocks(a)[p]|
    ensures LiveByte(a, p + i) && StartOf(a, p + i) == p
  {
    LiveByteInBlock(a, p + i);
  }

  /** A start pointer can be freed and its usable size is its block's length. */
  lemma StartPointer(a: Heap, p: int)
    requires WF(a) && p in Blocks(a)
    ensures p > 0 && LiveByte(a, p) && StartOf(a, p) == p && WalkClear(a, p) && Usable(a, p) == |Blocks(a)[p]|
  {
    BlockNonEmpty(a, p);
    ByteOf(a, p, 0);
    ReadBlock(a, p);
    AboveLarge(a, p);
    if !InSmall(a, p) {
      LiveLarge(a, p);
      PageOffset(a.lpage[p / PAGE_SIZE], HEADER);
    }
  }

  // ----- malloc and calloc

  method Malloc(h: Allocator, sz: nat) returns (p: int)
    requires h.Valid() && sz < WORD && (sz < SIGN_BIT ==> Legal(h.heap, Op.Malloc(sz)))
    modifies h, h.flsts
    ensures h.Valid()
    ensures sz >= SIGN_BIT ==> p == 0 && h.heap == old(h.heap)
    ensures sz < SIGN_BIT ==> h.heap == DoMalloc(old(h.heap), sz).0 && p == DoMalloc(old(h.heap), sz).1 && p > 0
    ensures p == 0 <==> sz >= 0x8000_0000_0000_0000
  {
    if sz / SIGN_BIT != 0 {
      return 0;
    }
    MallocBlocks(h.heap, sz);
    p := h.XxMalloc(sz);
  }

  /** The overflow test of calloc refuses exactly the products that do not fit a word. */
  lemma OverflowTest(nelem: nat, elsize: nat)
    requires nelem < WORD && elsize < WORD
    ensures var n := (nelem * elsize) % WORD;
      (elsize != 0 && nelem != n / elsize) <==> nelem * elsize >= WORD
    ensures nelem * elsize < WORD ==> (nelem * elsize) % WORD == nelem * elsize
  {
    var prod := nelem * elsize;
    var n := prod % WORD;
    if elsize != 0 {
      if prod < WORD {
        DivModUnique(prod, elsize, nelem, 0);
      } else if nelem == n / elsize {
        Product(n, elsize);
      }
    }
  }

  lemma Product(n: nat, e: nat)
    requires e > 0
    ensures (n / e) * e <= n
  {
  }

  /** Only the block at p changed, and only its contents. */
  ghost predicate OnlyBlock(b: map<int, seq<byte>>, b': map<int, seq<byte>>, p: int) {
    p in b && p in b' && |b'[p]| == |b[p]| && b' == b[p := b'[p]]
  }

  /** p[i] := b, by the client. */
  method StoreByte(h: Allocator, p: int, i: nat, b: byte, ghost k: nat, ghost pages: nat)
    requires h.Valid() && p in Blocks(h.heap) && i < |Blocks(h.heap)[p]| && Room(h.heap, k, pages)
    modifies h
    ensures h.Valid() && Room(h.heap, k, pages) && OnlyBlock(old(Blocks(h.heap)), Blocks(h.heap), p)
    ensures Blocks(h.heap)[p] == Poke(old(Blocks(h.heap))[p], i, b)
    ensures Legal(old(h.heap), Op.Write(p + i, b)) && h.heap == Step(old(h.heap), Op.Write(p + i, b))
  {
    hide WF, Placed, Blocks, DoWrite, Machine.RepMid;
    ByteOf(h.heap, p, i);
    WriteBlocks(h.heap, p + i, b);
    RoomWrite(h.heap, p + i, b, k, pages);
    h.ClientWrite(p + i, b);
  }

  /** *x, by the client, in the block at q. */
  method LoadAt(h: Allocator, x: int, ghost q: int) returns (b: byte)
    requires h.Valid() && q in Blocks(h.heap) && q <= x < q + |Blocks(h.heap)[q]|
    ensures b == Blocks(h.heap)[q][x - q]
  {
    hide WF, Placed, Blocks;
    ByteOf(h.heap, q, x - q);
    b := h.ClientRead(x);
  }

  /** memset(p, 0, n). */
  method Zero(h: Allocator, p: int, n: nat)
    requires h.Valid() && p in Blocks(h.heap) && n <= |Blocks(h.heap)[p]|
    modifies h
    ensures h.Valid() && OnlyBlock(old(Blocks(h.heap)), Blocks(h.heap), p)
    ensures forall j :: 0 <= j < n ==> Blocks(h.heap)[p][j] == 0
    ensures forall j :: n <= j < |Blocks(h.heap)[p]| ==> Blocks(h.heap)[p][j] == old(Blocks(h.heap))[p][j]
    ensures Ran(old(h.heap), Writes(p, Zeros(n)), h.heap)
  {
    hide Good, Blocks, Machine.Rep, Legal, Step, Ran, WF;
    ValidHeap(h);
    NoRoomNeeded(h.heap);
    ghost var a, b0 := h.heap, Blocks(h.heap);
    RanNone(a);
    NoBytes(p);
    for i := 0 to n
      invariant h.Valid() && OnlyBlock(b0, Blocks(h.heap), p) && Room(h.heap, 0, 0)
      invariant forall j :: 0 <= j < i ==> Blocks(h.heap)[p][j] == 0
      invariant forall j :: i <= j < |b0[p]| ==> Blocks(h.heap)[p][j] == b0[p][j]
      invariant Ran(a, Writes(p, Zeros(i)), h.heap)
    {
      ghost var a1 := h.heap;
      ValidHeap(h);
      StoreByte(h, p, i, 0, 0, 0);
      WritesSnoc(p, Zeros(i), 0);
      assert Zeros(i + 1) == Zeros(i) + [0];
      RanStep(a, Writes(p, Zeros(i)), a1, Op.Write(p + i, 0));
    }
  }

  lemma ValidHeap(h: Allocator)
    requires h.Valid()
    ensures Good(h.heap) && WF(h.heap)
  {
    hide WF, Placed, Machine.Rep;
  }

  lemma NoBytes(x: int)
    ensures Writes(x, []) == [] && Zeros(0) == []
  {
  }

  lemma NoRoomNeeded(a: Heap)
    requires Good(a)
    ensures Room(a, 0, 0)
  {
  }

  /** n elements of d from o on; nothing if they are not all there. */
  function Slice(d: seq<byte>, o: int, n: int): (s: seq<byte>)
    ensures 0 <= o && 0 <= n && o + n <= |d| ==> |s| == n
  {
    if 0 <= o && 0 <= n && o + n <= |d| then d[o..o + n] else []
  }

  /** memcpy(dst, src, n) to the start of a block from inside another one, at q. */
  method Copy(h: Allocator, dst: int, src: int, n: nat, ghost q: int, ghost k: nat, ghost pages: nat)
    requires h.Valid() && dst in Blocks(h.heap) && q in Blocks(h.heap) && dst != q && Room(h.heap, k, pages)
    requires n <= |Blocks(h.heap)[dst]| && q <= src && src + n <= q + |Blocks(h.heap)[q]|
    modifies h
    ensures h.Valid() && OnlyBlock(old(Blocks(h.heap)), Blocks(h.heap), dst) && Room(h.heap, k, pages)
    ensures Blocks(h.heap)[dst][..n] == old(Blocks(h.heap))[q][src - q..src - q + n]
    ensures Ran(old(h.heap), Writes(dst, Slice(old(Blocks(h.heap))[q], src - q, n)), h.heap)
  {
    hide Good, Blocks, Machine.Rep, Room, Legal, Step, Ran, WF;
    ValidHeap(h);
    ghost var a, b0 := h.heap, Blocks(h.heap);
    ghost var o := src - q;
    RanNone(a);
    NoBytes(dst);
    for i := 0 to n
      invariant h.Valid() && OnlyBlock(b0, Blocks(h.heap), dst) && Room(h.heap, k, pages)
      invariant Blocks(h.heap)[dst][..i] == b0[q][o..o + i]
      invariant Ran(a, Writes(dst, b0[q][o..o + i]), h.heap)
    {
      ghost var a1 := h.heap;
      ValidHeap(h);
      var b := LoadAt(h, src + i, q);
      StoreByte(h, dst, i, b, k, pages);
      WritesSnoc(dst, b0[q][o..o + i], b);
      assert b0[q][o..o + i + 1] == b0[q][o..o + i] + [b];
      assert Blocks(h.heap)[dst][..i + 1] == b0[q][o..o + i] + [b0[q][o + i]];
      RanStep(a, Writes(dst, b0[q][o..o + i]), a1, Op.Write(dst + i, b));
    }
  }

  /** The address a request of size bytes would get now. */
  ghost function NextAddr(a: Heap, size: nat): (x: int)
    requires WF(a)
    ensures x >= 0
  {
    AddressNat(a, size);
    DoMalloc(a, size).1
  }

  lemma AddressNat(a: Heap, size: nat)
    requires WF(a)
    ensures DoMalloc(a, size).1 >= 0
  {
    if size <= LARGEST_BLOCK_SIZE {
      BlockTypeIsLeast(size);
      if a.stacks[BlockType(size)] != [] { assert StackOk(a, BlockType(size)); }
    }
  }

  /** The operations of malloc. */
  function MallocOps(sz: nat): seq<Op> {
    if sz >= SIGN_BIT then [] else [Op.Malloc(sz)]
  }

  lemma MallocRan(a: Heap, sz: nat)
    requires WF(a) && (sz < SIGN_BIT ==> Legal(a, Op.Malloc(sz)))
    ensures Ran(a, MallocOps(sz), if sz < SIGN_BIT then DoMalloc(a, sz).0 else a)
  {
    hide WF, Legal, DoMalloc, Ran;
    if sz < SIGN_BIT { RanOne(a, Op.Malloc(sz)); } else { RanNone(a); }
  }

  /** The length of the block that malloc would return now. */
  ghost function NextLen(a: Heap, size: nat): nat
    requires WF(a)
  {
    |BlockData(DoMalloc(a, size).0, DoMalloc(a, size).1)|
  }

  lemma NextLenIs(a: Heap, size: nat)
    requires Good(a) && Legal(a, Op.Malloc(size))
    ensures NextLen(a, size) == GrantSize(size)
  {
    hide WF, Placed, Legal, DoMalloc, GrantSize;
    MallocBlocks(a, size);
    StepGood(a, Op.Malloc(size));
    var (a', r) := DoMalloc(a, size);
    BlockIs(a', r);
    GrantIs(size, |Blocks(a')[r]|);
  }

  lemma BlockIs(a: Heap, r: int)
    requires WF(a) && r in Blocks(a)
    ensures BlockData(a, r) == Blocks(a)[r]
  {
  }

  /** The operations of calloc of n bytes in all. */
  ghost function CallocOps(a: Heap, n: nat): seq<Op>
    requires WF(a)
  {
    if n >= SIGN_BIT then [] else MallocOps(n) + Writes(NextAddr(a, n), Zeros(n))
  }

  method Calloc(h: Allocator, nelem: nat, elsize: nat) returns (p: int)
    requires h.Valid() && nelem < WORD && elsize < WORD
    requires nelem * elsize < SIGN_BIT ==> Legal(h.heap, Op.Malloc(nelem * elsize))
    modifies h, h.flsts
    ensures h.Valid() && Ran(old(h.heap), CallocOps(old(h.heap), nelem * elsize), h.heap)
    ensures p == if nelem * elsize >= SIGN_BIT then 0 else NextAddr(old(h.heap), nelem * elsize)
    ensures p == 0 <==> nelem * elsize >= SIGN_BIT
    ensures p == 0 ==> h.heap == old(h.heap)
    ensures p != 0 ==> Added(old(h.heap), h.heap, p) && nelem * elsize <= |Blocks(h.heap)[p]|
    ensures p != 0 ==> forall j :: 0 <= j < nelem * elsize ==> Blocks(h.heap)[p][j] == 0
    ensures nelem * elsize < 0x8000_0000_0000_0000 ==>
      var n := nelem * elsize;
      && p == NextAddr(old(h.heap), n) && Ran(old(h.heap), [Op.Malloc(n)] + Writes(p, Zeros(n)), h.heap)
      && OnlyBlock(Blocks(DoMalloc(old(h.heap), n).0), Blocks(h.heap), p)
      && forall j :: n <= j < |Blocks(h.heap)[p]| ==> Blocks(h.heap)[p][j] == Blocks(DoMalloc(old(h.heap), n).0)[p][j]
  {
    hide Good, Blocks, Machine.Rep, Legal, Ran, WF, DoMalloc;
    ghost var a := h.heap;
    ValidHeap(h);
    var n := (nelem * elsize) % WORD;
    OverflowTest(nelem, elsize);
    if elsize != 0 && nelem != n / elsize {
      RanNone(a);
      return 0;
    }
    MallocRan(a, n);
    p := Malloc(h, n);
    if p != 0 {
      MallocBlocks(a, n);
      ghost var a1 := h.heap;
      Zero(h, p, n);
      RanThen(a, MallocOps(n), a1, Writes(p, Zeros(n)), h.heap);
    }
  }

  // ----- realloc

  /** The first n bytes of d are the n bytes of e from o on. */
  predicate Copied(d: seq<byte>, e: seq<byte>, o: int, n: int) {
    0 <= o && 0 <= n <= |d| && o + n <= |e| && d[..n] == e[o..o + n]
  }

  /** The size of the block that malloc gives for a request. */
  function GrantSize(sz: nat): int {
    if sz > LARGEST_BLOCK_SIZE then NumPages(sz) * PAGE_SIZE - HEADER
    else
      BlockTypeIsLeast(sz);
      Size(BlockType(sz))
  }

  /** realloc of a pointer into the block at q. It stays if a block for sz bytes would be as
      large; else its bytes from the pointer on, up to the smaller of its size and sz, begin a new
      block of at least sz bytes at r. No other block changes. */
  ghost predicate Reallocated(b: map<int, seq<byte>>, b': map<int, seq<byte>>, q: int, ptr: int, r: int, sz: nat)
    requires q in b && q <= ptr
  {
    var n, o := if |b[q]| < sz then |b[q]| else sz, ptr - q;
    if GrantSize(sz) == |b[q]| then r == ptr && b' == b
    else
      && r !in b && r in b' && sz <= |b'[r]| == GrantSize(sz)
      && Copied(b'[r], b[q], o, n)
      && b' == (b - {q})[r := b'[r]]
  }

  /** The bytes that realloc copies lie in the block. It copies up to the size of the whole block,
      also from a pointer that memalign adjusted. */
  ghost predicate CopyInside(a: Heap, ptr: int, sz: nat)
    requires WF(a) && LiveByte(a, ptr)
  {
    LiveByteInBlock(a, ptr);
    var q := StartOf(a, ptr);
    var len := |Blocks(a)[q]|;
    sz == 0 || sz >= SIGN_BIT || GrantSize(sz) == len || ptr + (if len < sz then len else sz) <= q + len
  }

  /** From a block's start the copy always stays inside; from further on, when there is a copy,
      it does if and only if the bytes from the pointer on are at least those asked for. */
  lemma CopyInsideWhen(a: Heap, ptr: int, sz: nat)
    requires WF(a) && LiveByte(a, ptr)
    ensures var q := StartOf(a, ptr);
      && q in Blocks(a) && q <= ptr < q + |Blocks(a)[q]|
      && (ptr == q ==> CopyInside(a, ptr, sz))
      && (ptr != q && 0 < sz < SIGN_BIT && GrantSize(sz) != |Blocks(a)[q]| ==>
            (CopyInside(a, ptr, sz) <==> ptr + sz <= q + |Blocks(a)[q]|))
  {
    hide WF, Blocks, LiveByte, StartOf, GrantSize;
    LiveByteInBlock(a, ptr);
  }

  /** The contents of the block that x points into. */
  ghost function BlockOf(a: Heap, x: int): seq<byte>
    requires WF(a) && LiveByte(a, x)
  {
    LiveByteInBlock(a, x);
    Blocks(a)[StartOf(a, x)]
  }

  /** The operations of realloc once there is a block for sz bytes at buf; d is the old one, at q. */
  function ReplaceOps(d: seq<byte>, q: int, ptr: int, buf: int, sz: nat): seq<Op> {
    if GrantSize(sz) == |d| then [Op.Free(buf)]
    else Writes(buf, Slice(d, ptr - q, if |d| < sz then |d| else sz)) + [Op.Free(ptr)]
  }

  ghost function ReallocOps(a: Heap, ptr: int, sz: nat): seq<Op>
    requires WF(a) && (ptr == 0 || LiveByte(a, ptr))
  {
    if ptr == 0 then MallocOps(sz)
    else if sz == 0 || sz >= SIGN_BIT then [Op.Free(ptr)]
    else MallocOps(sz) + ReplaceOps(BlockOf(a, ptr), StartOf(a, ptr), ptr, NextAddr(a, sz), sz)
  }

  ghost function ReallocResult(a: Heap, ptr: int, sz: nat): int
    requires WF(a) && (ptr == 0 || LiveByte(a, ptr))
  {
    if sz >= SIGN_BIT || (ptr != 0 && sz == 0) then 0
    else if ptr != 0 && GrantSize(sz) == |BlockOf(a, ptr)| then ptr
    else NextAddr(a, sz)
  }

  /** Every page of the object that x pointed into in a is retired in a'. */
  ghost predicate AllRetired(a: Heap, x: int, a': Heap) {
    LiveByte(a, x) && forall g :: ObjPage(a, x, g) ==> Retired(a', g)
  }

  /** size bytes from r on lie in the block of r. */
  ghost predicate Holds(a: Heap, r: int, size: nat) {
    && LiveByte(a, r) && StartOf(a, r) in Blocks(a)
    && r + size <= StartOf(a, r) + |Blocks(a)[StartOf(a, r)]|
  }

  /** What realloc returns holds the bytes asked for, unless it is an adjusted pointer that stayed
      with too few bytes behind it. */
  lemma ReallocHolds(a: Heap, b: map<int, seq<byte>>, q: int, ptr: int, r: int, sz: nat)
    requires WF(a) && q in b && q <= ptr < q + |b[q]| && sz > 0 && Reallocated(b, Blocks(a), q, ptr, r, sz)
    ensures Holds(a, r, sz) <==> GrantSize(sz) != |b[q]| || ptr + sz <= q + |b[q]|
  {
    hide WF, Blocks, LiveByte, StartOf, GrantSize, Copied;
    if GrantSize(sz) == |b[q]| { LiveByteInBlock(a, ptr); } else { StartPointer(a, r); }
  }

  /** The block at r begins with s. */
  predicate Holding(b: map<int, seq<byte>>, r: int, s: seq<byte>) {
    r in b && s <= b[r]
  }

  /** The operations of realloc of a block to another size, case by case. */
  lemma ReallocCases(a: Heap, ptr: int, sz: nat, b: Heap, r: int)
    requires Good(a) && LiveByte(a, ptr) && ptr != 0 && CopyInside(a, ptr, sz) && 0 < sz < SIGN_BIT
    requires Legal(a, Op.Malloc(sz)) && Ran(a, ReallocOps(a, ptr, sz), b) && r == ReallocResult(a, ptr, sz)
    requires StartOf(a, ptr) in Blocks(a) && StartOf(a, ptr) <= ptr
    requires Reallocated(Blocks(a), Blocks(b), StartOf(a, ptr), ptr, r, sz)
    ensures var d, o, buf := BlockOf(a, ptr), ptr - StartOf(a, ptr), NextAddr(a, sz);
      var m := if |d| < sz then |d| else sz;
      if NextLen(a, sz) == |d| then
        r == ptr && Ran(a, [Op.Malloc(sz), Op.Free(buf)], b)
      else
        && r == buf && o + m <= |d| && Holding(Blocks(b), r, d[o..o + m])
        && Ran(a, [Op.Malloc(sz)] + Writes(buf, d[o..o + m]) + [Op.Free(ptr)], b)
  {
    hide WF, Placed, Blocks, Legal, LiveByte, StartOf, GrantSize, DoMalloc, NextLen, Ran, Writes;
    NextLenIs(a, sz);
    CopyFits(a, ptr, sz);
    var d, o, buf := BlockOf(a, ptr), ptr - StartOf(a, ptr), NextAddr(a, sz);
    if NextLen(a, sz) == |d| {
      assert [Op.Malloc(sz)] + [Op.Free(buf)] == [Op.Malloc(sz), Op.Free(buf)];
    } else {
      var s := d[o..o + if |d| < sz then |d| else sz];
      assert Blocks(b)[r][..|s|] == s;
      assert ([Op.Malloc(sz)] + Writes(buf, s)) + [Op.Free(ptr)] == [Op.Malloc(sz)] + (Writes(buf, s) + [Op.Free(ptr)]);
    }
  }

  /** NULL comes back for 2^63 bytes or more and for none, and the old block is gone as well, which
      for a failure C11 forbids: a failed realloc keeps the old block only if there was none. */
  method Realloc(h: Allocator, ptr: int, sz: nat) returns (r: int)
    requires h.Valid() && sz < WORD
    requires ptr == 0 || (LiveByte(h.heap, ptr) && WalkClear(h.heap, ptr) && CopyInside(h.heap, ptr, sz))
    requires Room(h.heap, 2, if sz < SIGN_BIT then PagesFor(sz) else 0)
    modifies h, h.flsts
    ensures h.Valid() && Ran(old(h.heap), ReallocOps(old(h.heap), ptr, sz), h.heap)
    ensures r == ReallocResult(old(h.heap), ptr, sz)
    ensures r == 0 <==> sz >= SIGN_BIT || (ptr != 0 && sz == 0)
    ensures r == 0 && ptr == 0 ==> Blocks(h.heap) == old(Blocks(h.heap))
    ensures r == 0 && ptr != 0 ==> Blocks(h.heap) == old(Blocks(h.heap)) - {old(StartOf(h.heap, ptr))}
    ensures r != 0 && ptr == 0 ==> Added(old(h.heap), h.heap, r) && sz <= |Blocks(h.heap)[r]|
    ensures ptr != 0 ==> old(StartOf(h.heap, ptr)) in old(Blocks(h.heap)) && old(StartOf(h.heap, ptr)) <= ptr
    ensures r != 0 && ptr != 0 ==>
      Reallocated(old(Blocks(h.heap)), Blocks(h.heap), old(StartOf(h.heap, ptr)), ptr, r, sz)
    ensures r != 0 && ptr != 0 ==>
      var q, len := old(StartOf(h.heap, ptr)), |old(BlockOf(h.heap, ptr))|;
      Holds(h.heap, r, sz) <==> GrantSize(sz) != len || ptr + sz <= q + len
    ensures ptr != 0 && r != ptr ==> AllRetired(old(h.heap), ptr, h.heap)
    ensures ptr != 0 && r == ptr ==>
      AllRetired(DoMalloc(old(h.heap), sz).0, NextAddr(old(h.heap), sz), h.heap)
    ensures ptr == 0 && sz >= 0x8000_0000_0000_0000 ==> h.heap == old(h.heap)
    ensures ptr == 0 && sz < 0x8000_0000_0000_0000 ==>
      r == NextAddr(old(h.heap), sz) && Ran(old(h.heap), [Op.Malloc(sz)], h.heap)
    ensures ptr != 0 && !(0 < sz < 0x8000_0000_0000_0000) ==> Ran(old(h.heap), [Op.Free(ptr)], h.heap)
    ensures ptr != 0 && 0 < sz < 0x8000_0000_0000_0000 ==>
      var d, o, buf := old(BlockOf(h.heap, ptr)), ptr - old(StartOf(h.heap, ptr)), NextAddr(old(h.heap), sz);
      var m := if |d| < sz then |d| else sz;
      if NextLen(old(h.heap), sz) == |d| then
        r == ptr && Ran(old(h.heap), [Op.Malloc(sz), Op.Free(buf)], h.heap)
      else
        && r == buf && o + m <= |d| && Holding(Blocks(h.heap), r, d[o..o + m])
        && Ran(old(h.heap), [Op.Malloc(sz)] + Writes(buf, d[o..o + m]) + [Op.Free(ptr)], h.heap)
  {
    hide WF, Placed, Blocks, Machine.Rep, Legal, Room, LiveByte, StartOf, WalkClear, CopyInside, GrantSize;
    hide DoMalloc, Ran, AllRetired, Reallocated, ReplaceOps, Holds;
    ghost var pages := if sz < SIGN_BIT then PagesFor(sz) else 0;
    ghost var a := h.heap;
    if sz < SIGN_BIT { RoomMalloc(a, sz, 2, pages); }
    MallocRan(a, sz);
    if ptr == 0 {
      NoNullBlock(a);
      r := Malloc(h, sz);
      if sz < SIGN_BIT { MallocBlocks(a, sz); }
      return;
    }
    InteriorFacts(a, ptr);
    if sz == 0 {
      FreeAt(h, ptr, 2, pages);
      RanOne(a, Op.Free(ptr));
      return 0;
    }
    var objSize := h.XxMallocUsableSize(ptr);
    var buf := Malloc(h, sz);
    if buf != 0 {
      ghost var a1 := h.heap;
      MallocBlocks(a, sz);
      GrantIs(sz, |Blocks(a1)[buf]|);
      SameWalk(a, a1, ptr);
      CopyFits(a, ptr, sz);
      r := Replace(h, ptr, buf, objSize, sz, Blocks(a), StartOf(a, ptr), Blocks(a1)[buf], pages - PagesFor(sz));
      RanThen(a, MallocOps(sz), a1, ReplaceOps(BlockOf(a, ptr), StartOf(a, ptr), ptr, buf, sz), h.heap);
      ReallocHolds(h.heap, Blocks(a), StartOf(a, ptr), ptr, r, sz);
      ReallocCases(a, ptr, sz, h.heap, r);
      if r != ptr { SamePages(a, a1, ptr, h.heap); }
    } else {
      FreeAt(h, ptr, 2, pages);
      RanOne(a, Op.Free(ptr));
      r := 0;
    }
  }

  /** An object in the same block has the same pages. */
  lemma SamePages(a: Heap, a': Heap, x: int, b: Heap)
    requires WF(a) && WF(a') && LiveByte(a, x) && WalkClear(a, x)
    requires var q := StartOf(a, x); q in Blocks(a) && q in Blocks(a') && Blocks(a')[q] == Blocks(a)[q]
    requires AllRetired(a', x, b)
    ensures AllRetired(a, x, b)
  {
    hide WF, Blocks, Retired, WalkClear;
    forall g | ObjPage(a, x, g) ensures ObjPage(a', x, g) { SameObjPage(a, a', x, g); }
  }

  lemma SameObjPage(a: Heap, a': Heap, x: int, g: int)
    requires WF(a) && WF(a') && LiveByte(a, x) && WalkClear(a, x) && LiveByte(a', x)
    requires var q := StartOf(a, x); q in Blocks(a) && q in Blocks(a') && Blocks(a')[q] == Blocks(a)[q]
    requires ObjPage(a, x, g)
    ensures ObjPage(a', x, g)
  {
    hide Blocks, WalkClear;
    SameWalk(a, a', x);
    AboveLarge(a, x);
    AboveLarge(a', x);
    if !InSmall(a, x) {
      SameLarge(a, a', x);
      LiveLarge(a', x);
    }
  }

  /** A pointer into a block that leads back to its start. */
  lemma InteriorFacts(a: Heap, x: int)
    requires WF(a) && LiveByte(a, x) && WalkClear(a, x)
    ensures var q := StartOf(a, x);
      x > 0 && q in Blocks(a) && q <= x < q + |Blocks(a)[q]| && Usable(a, x) == |Blocks(a)[q]|
  {
    LiveByteInBlock(a, x);
    AboveLarge(a, x);
    ReadBlock(a, x);
    if !InSmall(a, x) { LiveLarge(a, x); }
  }

  lemma GrantIs(sz: nat, len: nat)
    requires Grants(sz, len)
    ensures len == GrantSize(sz)
  {
  }

  lemma CopyFits(a: Heap, ptr: int, sz: nat)
    requires WF(a) && LiveByte(a, ptr) && CopyInside(a, ptr, sz) && 0 < sz < SIGN_BIT
    ensures StartOf(a, ptr) in Blocks(a)
    ensures var q := StartOf(a, ptr);
      var len := |Blocks(a)[q]|;
      GrantSize(sz) == len || ptr + (if len < sz then len else sz) <= q + len
  {
    hide WF, Blocks, LiveByte, StartOf, GrantSize;
    LiveByteInBlock(a, ptr);
  }

  /** Where a pointer leads back to depends only on the block it points into. */
  lemma SameWalk(a: Heap, a': Heap, x: int)
    requires WF(a) && WF(a') && LiveByte(a, x) && WalkClear(a, x)
    requires var q := StartOf(a, x); q in Blocks(a) && q in Blocks(a') && Blocks(a')[q] == Blocks(a)[q]
    ensures LiveByte(a', x) && StartOf(a', x) == StartOf(a, x) && WalkClear(a', x)
  {
    var q := StartOf(a, x);
    LiveByteInBlock(a, x);
    LiveByteInBlock(a', x);
    AboveLarge(a, x);
    AboveLarge(a', x);
    if !InSmall(a, x) { SameLarge(a, a', x); }
  }

  lemma SameLarge(a: Heap, a': Heap, x: int)
    requires WF(a) && WF(a') && LiveByte(a, x) && !InSmall(a, x) && LiveByte(a', x) && !InSmall(a', x)
    requires StartOf(a', x) == StartOf(a, x)
    requires StartOf(a, x) in Blocks(a) && StartOf(a, x) in Blocks(a')
    requires Blocks(a')[StartOf(a, x)] == Blocks(a)[StartOf(a, x)]
    ensures a'.lpage[x / PAGE_SIZE] == a.lpage[x / PAGE_SIZE]
    ensures var p := a.lpage[x / PAGE_SIZE]; p in a.large && p in a'.large && a'.large[p] == a.large[p]
  {
    hide Blocks;
    ReadBlock(a, x);
    ReadBlock(a', x);
    LiveLarge(a, x);
    LiveLarge(a', x);
  }

  /** The rest of realloc, once a block for the new size is there, with contents d: if it turns out
      as large as the old one it is given back, else the bytes move over and the old block goes. */
  method Replace(h: Allocator, ptr: int, buf: int, objSize: int, sz: nat,
                 ghost b0: map<int, seq<byte>>, ghost q: int, ghost d: seq<byte>, ghost pages: nat)
    returns (r: int)
    requires h.Valid() && Room(h.heap, 1, pages)
    requires LiveByte(h.heap, ptr) && WalkClear(h.heap, ptr) && StartOf(h.heap, ptr) == q
    requires q in b0 && 0 < ptr && q <= ptr < q + |b0[q]| && buf > 0 && objSize == |b0[q]|
    requires buf !in b0 && Blocks(h.heap) == b0[buf := d] && sz <= |d| == GrantSize(sz)
    requires GrantSize(sz) == |b0[q]| || ptr + (if |b0[q]| < sz then |b0[q]| else sz) <= q + |b0[q]|
    modifies h, h.flsts
    ensures h.Valid() && r > 0 && Reallocated(b0, Blocks(h.heap), q, ptr, r, sz)
    ensures r == (if GrantSize(sz) == |b0[q]| then ptr else buf) && buf != ptr
    ensures Ran(old(h.heap), ReplaceOps(b0[q], q, ptr, buf, sz), h.heap)
    ensures AllRetired(old(h.heap), if r == ptr then buf else ptr, h.heap)
  {
    hide WF, Placed, Blocks, Machine.Rep, Legal, Room, LiveByte, StartOf, WalkClear, GrantSize;
    hide Reallocated, Copied, Slice, Ran, AllRetired;
    ValidHeap(h);
    StartPointer(h.heap, buf);
    var bufSize := h.XxMallocUsableSize(buf);
    if objSize == bufSize {
      GiveBack(h, buf, b0, d, pages);
      KeptIs(b0, Blocks(h.heap), q, ptr, sz);
      r := ptr;
    } else {
      var minSize := if objSize < sz then objSize else sz;
      ghost var d' := MoveOver(h, ptr, buf, minSize, q, pages);
      MovedIs(b0, d, d', Blocks(h.heap), buf, q, ptr, sz);
      r := buf;
    }
  }

  /** The new block goes. */
  method GiveBack(h: Allocator, buf: int, ghost b0: map<int, seq<byte>>, ghost d: seq<byte>, ghost pages: nat)
    requires h.Valid() && Room(h.heap, 1, pages) && buf !in b0 && Blocks(h.heap) == b0[buf := d]
    modifies h, h.flsts
    ensures h.Valid() && Blocks(h.heap) == b0
    ensures Ran(old(h.heap), [Op.Free(buf)], h.heap) && AllRetired(old(h.heap), buf, h.heap)
  {
    hide WF, Placed, Blocks, Machine.Rep, Legal, Room, LiveByte, StartOf, WalkClear, Ran, AllRetired;
    ValidHeap(h);
    StartPointer(h.heap, buf);
    RanFree(h.heap, buf, 1, pages);
    FreeAt(h, buf, 1, pages);
    assert b0[buf := d] - {buf} == b0;
  }

  lemma KeptIs(b0: map<int, seq<byte>>, b': map<int, seq<byte>>, q: int, ptr: int, sz: nat)
    requires b' == b0 && q in b0 && q <= ptr && GrantSize(sz) == |b0[q]|
    ensures Reallocated(b0, b', q, ptr, ptr, sz)
  {
    hide GrantSize;
  }

  /** The first n bytes of the block at buf become those from ptr on, and the old block goes. */
  method MoveOver(h: Allocator, ptr: int, buf: int, n: nat, ghost q: int, ghost pages: nat)
    returns (ghost d': seq<byte>)
    requires h.Valid() && Room(h.heap, 1, pages) && ptr > 0 && buf != q
    requires LiveByte(h.heap, ptr) && WalkClear(h.heap, ptr) && StartOf(h.heap, ptr) == q
    requires q in Blocks(h.heap) && buf in Blocks(h.heap) && n <= |Blocks(h.heap)[buf]|
    requires q <= ptr && ptr + n <= q + |Blocks(h.heap)[q]|
    modifies h, h.flsts
    ensures h.Valid() && |d'| == |old(Blocks(h.heap))[buf]|
    ensures Copied(d', old(Blocks(h.heap))[q], ptr - q, n)
    ensures Blocks(h.heap) == old(Blocks(h.heap))[buf := d'] - {q}
    ensures Ran(old(h.heap), Writes(buf, Slice(old(Blocks(h.heap))[q], ptr - q, n)) + [Op.Free(ptr)], h.heap)
    ensures AllRetired(old(h.heap), ptr, h.heap)
  {
    hide WF, Placed, Blocks, Machine.Rep, Legal, Room, LiveByte, StartOf, WalkClear, Ran, AllRetired, Slice;
    ValidHeap(h);
    ghost var a := h.heap;
    Copy(h, buf, ptr, n, q, 1, pages);
    ghost var a1 := h.heap;
    ValidHeap(h);
    d' := Blocks(h.heap)[buf];
    SameWalk(a, a1, ptr);
    RanFree(a1, ptr, 1, pages);
    FreeAt(h, ptr, 1, pages);
    RanThen(a, Writes(buf, Slice(Blocks(a)[q], ptr - q, n)), a1, [Op.Free(ptr)], h.heap);
    SamePages(a, a1, ptr, h.heap);
  }

  lemma RanFree(a: Heap, x: int, k: nat, pages: nat)
    requires Good(a) && x != 0 && Disciplined(a, Op.Free(x)) && k >= 1 && Room(a, k, pages)
    ensures Legal(a, Op.Free(x)) && Ran(a, [Op.Free(x)], Step(a, Op.Free(x)))
  {
    hide WF, Placed, Legal, Step, Room, Ran, Disciplined;
    RoomFree(a, x, k, pages);
    RanOne(a, Op.Free(x));
  }

  lemma MovedIs(b0: map<int, seq<byte>>, d: seq<byte>, d': seq<byte>, b': map<int, seq<byte>>,
                buf: int, q: int, ptr: int, sz: nat)
    requires b' == b0[buf := d][buf := d'] - {q}
    requires buf !in b0 && q in b0 && q <= ptr && sz <= |d'| == GrantSize(sz) && GrantSize(sz) != |b0[q]|
    requires Copied(d', b0[q], ptr - q, if |b0[q]| < sz then |b0[q]| else sz)
    ensures Reallocated(b0, b', q, ptr, buf, sz)
  {
    hide GrantSize, Copied;
    assert b' == (b0 - {q})[buf := d'];
  }

  /** free through any pointer into a block that leads back to its start. */
  method FreeAt(h: Allocator, x: int, ghost k: nat, ghost pages: nat)
    requires h.Valid() && LiveByte(h.heap, x) && WalkClear(h.heap, x) && x > 0 && k >= 1 && Room(h.heap, k, pages)
    modifies h, h.flsts
    ensures h.Valid() && Room(h.heap, k - 1, pages)
    ensures Blocks(h.heap) == old(Blocks(h.heap)) - {old(StartOf(h.heap, x))}
    ensures Legal(old(h.heap), Op.Free(x)) && h.heap == Step(old(h.heap), Op.Free(x))
    ensures AllRetired(old(h.heap), x, h.heap)
  {
    hide Placed, Blocks, Machine.Rep, Room, Retired, ObjPage;
    RoomFree(h.heap, x, k, pages);
    FreeBlocks(h.heap, x);
    forall g | ObjPage(h.heap, x, g) ensures Retired(DoFree(h.heap, x), g) { FreeRetires(h.heap, x, g); }
    h.XxFree(x);
  }

  lemma NoNullBlock(a: Heap)
    requires WF(a)
    ensures 0 !in Blocks(a)
  {
    if 0 in Blocks(a) { StartPointer(a, 0); }
  }

  // ----- memalign and its relatives

  /** (p & (alignment - 1)) == p, the shortcut test, is p < alignment. */
  lemma ShortcutTest(p: nat, alignment: nat)
    requires alignment > 0 && IsPow2(alignment)
    ensures BitAnd(p, alignment - 1) == p <==> p < alignment
  {
    var k: nat :| alignment == Pow2(k);
    AndMask(p, k);
    if p < alignment { DivModUnique(p, alignment, 0, p); }
  }

  function AlignUp(p: nat, alignment: nat): nat
    requires 0 < alignment <= WORD
  {
    WordIsPow2();
    BitAnd((p + alignment - 1) % WORD, BitNot(alignment - 1, 64))
  }

  lemma WordIsPow2()
    ensures Pow2(64) == WORD
  {
    SizeValues();
    assert Pow2(8) == Size(4);
    Pow2Add(8, 8);
    Pow2Add(16, 16);
    Pow2Add(32, 32);
  }

  lemma {:induction false} Pow2Add(i: nat, j: nat)
    ensures Pow2(i + j) == Pow2(i) * Pow2(j)
  {
    if j == 0 {
    } else {
      Pow2Add(i, j - 1);
    }
  }

  /** Mask rounding is arithmetic rounding up. */
  lemma AlignUpIsRoundUp(p: nat, alignment: nat)
    requires 0 < alignment && IsPow2(alignment) && p + alignment <= WORD
    ensures AlignUp(p, alignment) == RoundUp(p, alignment)
    ensures RoundUp(p, alignment) % alignment == 0 && p <= RoundUp(p, alignment) < p + alignment
  {
    var k: nat :| alignment == Pow2(k);
    WordIsPow2();
    if k > 64 { Pow2Monotone(65, k); }
    var x := p + alignment - 1;
    NoWrap(x);
    AndClear(x, k, 64);
    RoundingUp(p, alignment);
  }

  lemma RoundingUp(p: nat, m: nat)
    requires m > 0
    ensures var x := p + m - 1; x - x % m == RoundUp(p, m)
    ensures RoundUp(p, m) % m == 0 && p <= RoundUp(p, m) < p + m
  {
    var q, r := p / m, p % m;
    assert p == m * q + r;
    if r == 0 {
      assert RoundUp(p, m) == p && p + m - 1 == m * q + (m - 1);
      DivModUnique(p + m - 1, m, q, m - 1);
    } else {
      assert RoundUp(p, m) == p + (m - r);
      assert p + m - 1 == m * (q + 1) + (r - 1);
      DivModUnique(p + m - 1, m, q + 1, r - 1);
      assert RoundUp(p, m) == m * (q + 1);
      DivModUnique(RoundUp(p, m), m, q + 1, 0);
    }
  }

  /** No small page is below 2^20, so no address is below 2^32. */
  lemma AddressFloor(a: Heap, size: nat)
    requires WF(a) && Legal(a, Op.Malloc(size))
    ensures NextAddr(a, size) >= 0x1_0000_0000
  {
    if size <= LARGEST_BLOCK_SIZE {
      BlockTypeIsLeast(size);
      PopWF(a, BlockType(size));
    }
  }

  /** When memalign returns NULL. */
  ghost predicate MemalignFails(a: Heap, alignment: nat, size: nat)
    requires WF(a)
  {
    !IsPow2(alignment) || size >= SIGN_BIT
    || (alignment != 8 && alignment <= NextAddr(a, size) && size + 2 * alignment >= SIGN_BIT)
  }

  /** memalign tries a block for the request alone, finds it unaligned and frees it. */
  ghost predicate Scratches(a: Heap, alignment: nat, size: nat)
    requires WF(a)
  {
    IsPow2(alignment) && size < SIGN_BIT && alignment != 8 && alignment <= NextAddr(a, size)
  }

  /** The request that the block memalign returns a pointer into was made for. */
  ghost function MemalignRequest(a: Heap, alignment: nat, size: nat): nat
    requires WF(a)
  {
    if Scratches(a, alignment, size) then size + 2 * alignment else size
  }

  /** The heap after the scratch block has come and gone. */
  ghost function AfterScratch(a: Heap, size: nat): (a': Heap)
    requires WF(a)
    ensures WF(a')
  {
    var ops := ScratchOps(a, size);
    if LegalRun(a, ops) then Run(a, ops) else a
  }

  ghost function ScratchOps(a: Heap, size: nat): seq<Op>
    requires WF(a)
  {
    [Op.Malloc(size), Op.Free(NextAddr(a, size))]
  }

  ghost function MemalignOps(a: Heap, alignment: nat, size: nat): seq<Op>
    requires WF(a)
  {
    if !IsPow2(alignment) then []
    else if Scratches(a, alignment, size) then ScratchOps(a, size) + MallocOps(size + 2 * alignment)
    else MallocOps(size)
  }

  ghost function MemalignResult(a: Heap, alignment: nat, size: nat): int
    requires WF(a)
  {
    if MemalignFails(a, alignment, size) then 0
    else if Scratches(a, alignment, size) then RoundUp(NextAddr(AfterScratch(a, size), size + 2 * alignment), alignment)
    else NextAddr(a, size)
  }

  /** r points into a block made for a request of req bytes. */
  ghost predicate MadeFor(a: Heap, r: int, req: nat) {
    LiveByte(a, r) && StartOf(a, r) in Blocks(a) && |Blocks(a)[StartOf(a, r)]| == GrantSize(req)
  }

  lemma MadeForIs(a: Heap, r: int, req: nat)
    requires MadeFor(a, r, req)
    ensures LiveByte(a, r) && StartOf(a, r) in Blocks(a) && |Blocks(a)[StartOf(a, r)]| == GrantSize(req)
  {
  }

  lemma ScratchRan(a: Heap, size: nat, a': Heap)
    requires Good(a) && Legal(a, Op.Malloc(size))
    requires var (a1, p) := DoMalloc(a, size);
      WF(a1) && Legal(a1, Op.Free(p)) && a' == Step(a1, Op.Free(p))
    ensures Ran(a, ScratchOps(a, size), a') && AfterScratch(a, size) == a'
  {
    hide WF, Placed, Legal, DoMalloc;
    var (a1, p) := DoMalloc(a, size);
    RanOne(a, Op.Malloc(size));
    RanStep(a, [Op.Malloc(size)], a1, Op.Free(p));
    assert [Op.Malloc(size)] + [Op.Free(p)] == ScratchOps(a, size);
  }

  /** The operations in which the scratch block comes and goes, one by one. */
  lemma ScratchCases(a: Heap, size: nat, req: nat, b: Heap)
    requires WF(a) && Ran(a, ScratchOps(a, size) + MallocOps(req), b)
    ensures var p := NextAddr(a, size);
      if req >= SIGN_BIT then Ran(a, [Op.Malloc(size), Op.Free(p)], b)
      else Ran(a, [Op.Malloc(size), Op.Free(p), Op.Malloc(req)], b)
  {
    hide WF, Ran, NextAddr;
    var p := NextAddr(a, size);
    assert ScratchOps(a, size) == [Op.Malloc(size), Op.Free(p)];
    if req < SIGN_BIT {
      assert ScratchOps(a, size) + MallocOps(req) == [Op.Malloc(size), Op.Free(p), Op.Malloc(req)];
    } else {
      assert ScratchOps(a, size) + MallocOps(req) == ScratchOps(a, size);
    }
  }

  function MemalignPages(alignment: nat, size: nat): nat {
    if size >= SIGN_BIT then 0
    else PagesFor(size) + (if size + 2 * alignment < SIGN_BIT then PagesFor(size + 2 * alignment) else 0)
  }

  /** r points into one new block with size bytes from r on, and can be freed. */
  ghost predicate AlignedIn(a: Heap, a': Heap, r: int, size: nat) {
    && LiveByte(a', r) && WalkClear(a', r) && Added(a, a', StartOf(a', r))
    && StartOf(a', r) <= r && r + size <= StartOf(a', r) + |Blocks(a')[StartOf(a', r)]|
  }

  /** No page of a block fresh from malloc begins with the magic word. */
  lemma FreshWalkClear(a: Heap, n: nat, x: int)
    requires Good(a) && Legal(a, Op.Malloc(n))
    requires var (a', r) := DoMalloc(a, n); LiveByte(a', x) && StartOf(a', x) == r
    ensures WalkClear(DoMalloc(a, n).0, x)
  {
    hide Placed, Pop, LiveByte, StartOf, WalkClear, Shape, Bijection, Stacks, Larges;
    StepGood(a, Op.Malloc(n));
    MallocKind(a, n);
    if n > LARGEST_BLOCK_SIZE { BigWalkClear(a, NumPages(n), x); } else { SmallWalkClear(DoMalloc(a, n).0, x); }
  }

  lemma BigWalkClear(a: Heap, n: nat, x: int)
    requires n >= 1 && WF(MallocBig(a, n)) && LiveByte(MallocBig(a, n), x)
    requires StartOf(MallocBig(a, n), x) == LargeAddr(a.largeHigh)
    ensures WalkClear(MallocBig(a, n), x)
  {
    hide WF;
    var a' := MallocBig(a, n);
    if !InSmall(a', x) {
      LiveLarge(a', x);
      ZeroWalk(a'.large[a.largeHigh], x / PAGE_SIZE - a.largeHigh);
    }
  }

  lemma SmallWalkClear(a: Heap, x: int)
    requires WF(a) && LiveByte(a, x) && StartOf(a, x) / PAGE_SIZE in a.small
    ensures WalkClear(a, x)
  {
    hide WF, StartOf;
    if !InSmall(a, x) { LargeStartPage(a, x); }
  }

  lemma LargeStartPage(a: Heap, x: int)
    requires WF(a) && LiveByte(a, x) && !InSmall(a, x)
    ensures StartOf(a, x) / PAGE_SIZE !in a.small
  {
    hide WF;
    var p := a.lpage[x / PAGE_SIZE];
    LiveLarge(a, x);
    PageOffset(p, HEADER);
    RangesApart(a, p);
  }

  lemma MallocKind(a: Heap, n: nat)
    requires Good(a) && Legal(a, Op.Malloc(n))
    ensures n > LARGEST_BLOCK_SIZE ==> DoMalloc(a, n).1 / PAGE_SIZE == a.largeHigh
    ensures n <= LARGEST_BLOCK_SIZE ==> DoMalloc(a, n).1 / PAGE_SIZE in DoMalloc(a, n).0.small
  {
    if n > LARGEST_BLOCK_SIZE {
      PageOffset(a.largeHigh, HEADER);
    } else {
      BlockTypeIsLeast(n);
      PopBlocks(a, BlockType(n));
    }
  }

  lemma {:induction false} ZeroWalk(o: LargeObj, j: nat)
    requires |o.data| == o.numPages * PAGE_SIZE - HEADER && j < o.numPages && o.data == Zeros(|o.data|)
    ensures WalkStop(o, j) == 0
  {
    if j == 0 {
    } else {
      Layout.ZeroWord(8);
      var i := j * PAGE_SIZE - HEADER;
      assert o.data[i..i + 8] == Zeros(8);
      ZeroWalk(o, j - 1);
    }
  }

  lemma ZeroNotPower()
    ensures !IsPow2(0)
  {
  }

  lemma SmallRemainder(p: nat, m: nat)
    requires p < m
    ensures p % m == p
  {
    DivModUnique(p, m, 0, p);
  }

  lemma MultipleOf8(p: nat)
    requires p % 16 == 0
    ensures p % 8 == 0
  {
  }

  /** Addresses stay below the sign bit. */
  lemma BlockBound(a: Heap, q: int)
    requires WF(a) && q in Blocks(a)
    ensures q + |Blocks(a)[q]| <= SIGN_BIT
  {
    InStarts(a, q);
    RangesApart(a, q / PAGE_SIZE);
    if SmallStart(a, q) { assert SmallOk(a, q / PAGE_SIZE); } else { assert LargeOk(a, q / PAGE_SIZE); }
  }

  /** A power of two below the sign bit can be doubled and added to a size. */
  lemma NoOverflow(alignment: nat, size: nat)
    requires IsPow2(alignment) && alignment < SIGN_BIT && size < SIGN_BIT
    ensures size + 2 * alignment < WORD
  {
    var k: nat :| alignment == Pow2(k);
    WordIsPow2();
    assert Pow2(64) == 2 * Pow2(63) && Pow2(63) == 2 * Pow2(62);
    if k <= 62 { Pow2Monotone(k, 62); }
    if k >= 63 { Pow2Monotone(63, k); }
  }

  /** What malloc returns is itself a pointer into one new block. */
  lemma FreshResult(a: Heap, n: nat)
    requires Good(a) && Legal(a, Op.Malloc(n))
    ensures var (a', r) := DoMalloc(a, n);
      Good(a') && 0 < r < SIGN_BIT && r % 16 == 0 && AlignedIn(a, a', r, n) && StartOf(a', r) == r
      && r in Blocks(a') && Blocks(a') - {r} == Blocks(a) && MadeFor(a', r, n)
  {
    hide WF, Placed, Blocks, Legal, DoMalloc, GrantSize;
    MallocBlocks(a, n);
    MallocAligned(a, n);
    StepGood(a, Op.Malloc(n));
    var (a', r) := DoMalloc(a, n);
    GrantIs(n, |Blocks(a')[r]|);
    StartPointer(a', r);
    BlockBound(a', r);
  }

  /** A pointer rounded up inside a fresh block. */
  lemma RoundedResult(a: Heap, size: nat, alignment: nat, r: int)
    requires Good(a) && Legal(a, Op.Malloc(size + 2 * alignment))
    requires var p := NextAddr(a, size + 2 * alignment); p <= r < p + alignment
    ensures AlignedIn(a, DoMalloc(a, size + 2 * alignment).0, r, size)
    ensures MadeFor(DoMalloc(a, size + 2 * alignment).0, r, size + 2 * alignment)
    ensures StartOf(DoMalloc(a, size + 2 * alignment).0, r) == NextAddr(a, size + 2 * alignment)
  {
    hide WF, Placed, Blocks, Legal, DoMalloc, GrantSize;
    var n := size + 2 * alignment;
    MallocBlocks(a, n);
    StepGood(a, Op.Malloc(n));
    var (a', p) := DoMalloc(a, n);
    GrantIs(n, |Blocks(a')[p]|);
    ByteOf(a', p, r - p);
    FreshWalkClear(a, n, r);
  }

  /** The last two lines of memalign: a block large enough for the rounding, and the rounding. */
  method AlignedAgain(h: Allocator, alignment: nat, size: nat, ghost a: Heap) returns (r: int)
    requires h.Valid() && IsPow2(alignment) && 0 < alignment < SIGN_BIT && size < SIGN_BIT
    requires size + 2 * alignment < SIGN_BIT ==> Legal(h.heap, Op.Malloc(size + 2 * alignment))
    requires Blocks(h.heap) == Blocks(a)
    modifies h, h.flsts
    ensures h.Valid()
    ensures r == 0 <==> size + 2 * alignment >= SIGN_BIT
    ensures r == 0 ==> Blocks(h.heap) == Blocks(a)
    ensures r != 0 ==> r > 0 && AlignedIn(a, h.heap, r, size) && r % alignment == 0
    ensures r != 0 ==> MadeFor(h.heap, r, size + 2 * alignment) && r - alignment < StartOf(h.heap, r) <= r
    ensures r != 0 ==> r == RoundUp(NextAddr(old(h.heap), size + 2 * alignment), alignment)
    ensures Ran(old(h.heap), MallocOps(size + 2 * alignment), h.heap)
  {
    hide WF, Placed, Blocks, Machine.Rep, Legal, IsPow2, Ran, MadeFor;
    MallocRan(h.heap, size + 2 * alignment);
    NoOverflow(alignment, size);
    NoWrap(size + 2 * alignment);
    ghost var a1 := h.heap;
    if size + 2 * alignment < SIGN_BIT { FreshResult(a1, size + 2 * alignment); }
    var ptr := Malloc(h, (size + 2 * alignment) % WORD);
    AlignUpIsRoundUp(ptr, alignment);
    r := AlignUp(ptr, alignment);
    if ptr > 0 {
      RoundedResult(a1, size, alignment, r);
      assert AlignedIn(a, h.heap, r, size);
    } else {
      SmallRemainder(0, alignment);
    }
  }

  /** memalign. The result lies in one new block that can be freed through it; every other
      block is as before. It is aligned if and only if the alignment is 8 or at most the address
      malloc would have returned: the shortcut returns any pointer below the alignment as it is. */
  method Memalign(h: Allocator, alignment: nat, size: nat) returns (r: int)
    requires h.Valid() && alignment < WORD && size < WORD && Room(h.heap, 3, MemalignPages(alignment, size))
    modifies h, h.flsts
    ensures h.Valid()
    ensures r == 0 <==> MemalignFails(old(h.heap), alignment, size)
    ensures r == 0 ==> Blocks(h.heap) == old(Blocks(h.heap))
    ensures r != 0 ==> r > 0 && AlignedIn(old(h.heap), h.heap, r, size)
    ensures r != 0 ==> (r % alignment == 0 <==> alignment == 8 || alignment <= NextAddr(old(h.heap), size))
    ensures r != 0 ==> MadeFor(h.heap, r, MemalignRequest(old(h.heap), alignment, size))
    ensures Ran(old(h.heap), MemalignOps(old(h.heap), alignment, size), h.heap)
    ensures r == MemalignResult(old(h.heap), alignment, size)
    ensures !IsPow2(alignment) || size >= 0x8000_0000_0000_0000 ==> r == 0 && h.heap == old(h.heap)
    ensures IsPow2(alignment) && size < 0x8000_0000_0000_0000 ==>
      var p, req := NextAddr(old(h.heap), size), size + 2 * alignment;
      if alignment == 8 || p < alignment then
        r == p && Ran(old(h.heap), [Op.Malloc(size)], h.heap)
      else
        && AllRetired(DoMalloc(old(h.heap), size).0, p, h.heap)
        && if req >= 0x8000_0000_0000_0000 then
             r == 0 && Ran(old(h.heap), [Op.Malloc(size), Op.Free(p)], h.heap)
           else
             && Ran(old(h.heap), [Op.Malloc(size), Op.Free(p), Op.Malloc(req)], h.heap)
             && r % alignment == 0 && LiveByte(h.heap, r) && r - alignment < StartOf(h.heap, r) <= r
             && StartOf(h.heap, r) in Blocks(h.heap)
             && |Blocks(h.heap)[StartOf(h.heap, r)]| == GrantSize(req)
  {
    hide WF, Placed, Blocks, Machine.Rep, Legal, Room, PagesFor, IsPow2, DoMalloc, AlignedIn, BitAnd;
    hide Ran, MadeFor, AllRetired, AfterScratch, ScratchOps;
    ValidHeap(h);
    RanNone(h.heap);
    if alignment > 0 { PowerTest(alignment); } else { ZeroNotPower(); }
    if alignment == 0 || BitAnd(alignment, alignment - 1) != 0 {
      return 0;
    }
    ghost var a, pages := h.heap, MemalignPages(alignment, size);
    if size < SIGN_BIT {
      RoomMalloc(a, size, 3, pages);
      FreshResult(a, size);
      MultipleOf8(NextAddr(a, size));
    }
    MallocRan(a, size);
    if alignment == 8 {
      r := Malloc(h, size);
    } else {
      var ptr := Malloc(h, size);
      ShortcutTest(ptr, alignment);
      if BitAnd(ptr, alignment - 1) == ptr {
        SmallRemainder(ptr, alignment);
        return ptr;
      }
      StartPointer(h.heap, ptr);
      ghost var a1 := h.heap;
      FreeAt(h, ptr, 2, pages - PagesFor(size));
      ghost var a2 := h.heap;
      ValidHeap(h);
      ScratchRan(a, size, a2);
      assert Blocks(h.heap) == Blocks(a);
      if size + 2 * alignment < SIGN_BIT { RoomMalloc(h.heap, size + 2 * alignment, 1, pages - PagesFor(size)); }
      r := AlignedAgain(h, alignment, size, a);
      RanThen(a, ScratchOps(a, size), a2, MallocOps(size + 2 * alignment), h.heap);
      StillRetired(a1, ptr, a2, MallocOps(size + 2 * alignment), h.heap);
      ScratchCases(a, size, size + 2 * alignment, h.heap);
      if r != 0 { MadeForIs(h.heap, r, size + 2 * alignment); }
    }
  }

  lemma StillRetired(a: Heap, x: int, b: Heap, ops: seq<Op>, b': Heap)
    requires AllRetired(a, x, b) && Ran(b, ops, b')
    ensures AllRetired(a, x, b')
  {
    hide Ran, Retired, ObjPage;
    forall g | ObjPage(a, x, g) ensures Retired(b', g) { RanRetired(b, ops, b', g); }
  }

  /** Freeing the pointer memalign returned leaves the blocks as before memalign. */
  lemma MemalignThenFree(a: Heap, a': Heap, r: int, size: nat)
    requires WF(a') && AlignedIn(a, a', r, size) && r != 0 && Fits(a', Op.Free(r))
    ensures Blocks(DoFree(a', r)) == Blocks(a)
  {
    FreeBlocks(a', r);
  }

  const EINVAL := 22
  const ENOMEM := 12

  /** posix_memalign: the result code, and the new value of *memptr. */
  method PosixMemalign(h: Allocator, memptr: int, alignment: nat, size: nat) returns (rc: int, memptr': int)
    requires h.Valid() && alignment < WORD && size < WORD && Room(h.heap, 3, MemalignPages(alignment, size))
    modifies h, h.flsts
    ensures h.Valid()
    ensures rc == EINVAL <==> !IsPow2(alignment)
    ensures rc == ENOMEM <==> IsPow2(alignment) && MemalignFails(old(h.heap), alignment, size)
    ensures rc == 0 || rc == 12 || rc == 22
    ensures rc == 22 <==> !IsPow2(alignment)
    ensures rc != 0 ==> Blocks(h.heap) == old(Blocks(h.heap)) && memptr' == memptr
    ensures rc == 0 ==> memptr' > 0 && AlignedIn(old(h.heap), h.heap, memptr', size)
    ensures rc == 0 ==> (memptr' % alignment == 0 <==> alignment == 8 || alignment <= NextAddr(old(h.heap), size))
    ensures rc == 0 ==> memptr' == MemalignResult(old(h.heap), alignment, size)
    ensures Ran(old(h.heap), MemalignOps(old(h.heap), alignment, size), h.heap)
  {
    hide WF, Placed, Blocks, Machine.Rep, Legal, Room, IsPow2, AlignedIn, Ran;
    ValidHeap(h);
    RanNone(h.heap);
    if alignment > 0 { PowerTest(alignment); } else { ZeroNotPower(); }
    if alignment == 0 || BitAnd(alignment, alignment - 1) != 0 {
      return EINVAL, memptr;
    }
    var ptr := Memalign(h, alignment, size);
    if ptr == 0 {
      return ENOMEM, memptr;
    }
    return 0, ptr;
  }

  /** The size aligned_alloc passes on: one alignment more when it already is a multiple. */
  function RoundedSize(alignment: nat, size: nat): (n: nat)
    requires alignment > 0
    ensures size < n <= size + alignment && n % alignment == 0
  {
    var q := size / alignment;
    assert size == alignment * q + size % alignment;
    DivModUnique(alignment * (q + 1), alignment, q + 1, 0);
    size + alignment - size % alignment
  }

  /** The same in the 64 bits of a size_t, which may wrap. */
  function PassedSize(alignment: nat, size: nat): nat
    requires alignment > 0
  {
    (size + alignment - size % alignment) % WORD
  }

  /** For a power of two the rounding either fits or wraps to nothing, and then the size asked for
      is at least 2^63. */
  lemma WrapIsZero(alignment: nat, size: nat)
    requires IsPow2(alignment) && 0 < alignment < WORD && size < WORD
    ensures RoundedSize(alignment, size) < WORD ==> PassedSize(alignment, size) == RoundedSize(alignment, size)
    ensures RoundedSize(alignment, size) >= WORD ==> PassedSize(alignment, size) == 0 && size >= SIGN_BIT
  {
    var n := RoundedSize(alignment, size);
    if n < WORD {
      NoWrap(n);
    } else {
      HalfWord(alignment);
      var k: nat :| alignment == Pow2(k);
      if k > 64 { Pow2Monotone(64, k); }
      WordIsPow2();
      Pow2Add(k, 64 - k);
      NoMultipleBetween(n, alignment, Pow2(64 - k));
    }
  }

  /** A power of two below 2^64 is at most 2^63. */
  lemma HalfWord(alignment: nat)
    requires IsPow2(alignment) && alignment < WORD
    ensures alignment <= SIGN_BIT
  {
    var k: nat :| alignment == Pow2(k);
    WordIsPow2();
    assert Pow2(64) == 2 * Pow2(63);
    if k >= 64 { Pow2Monotone(64, k); } else { Pow2Monotone(k, 63); }
  }

  /** A multiple of m that exceeds m * c by less than m is m * c. */
  lemma NoMultipleBetween(n: nat, m: nat, c: nat)
    requires m > 0 && n % m == 0 && m * c <= n < m * c + m
    ensures n == m * c
  {
    DivModUnique(n, m, c, n - m * c);
  }

  /** aligned_alloc is memalign for the rounded size; what it returns holds the size asked for if
      and only if the rounding does not wrap. */
  method AlignedAlloc(h: Allocator, alignment: nat, size: nat) returns (r: int)
    requires h.Valid() && 0 < alignment < WORD && size < WORD
    requires Room(h.heap, 3, MemalignPages(alignment, PassedSize(alignment, size)))
    modifies h, h.flsts
    ensures h.Valid()
    ensures r == 0 <==> MemalignFails(old(h.heap), alignment, PassedSize(alignment, size))
    ensures r == 0 ==> Blocks(h.heap) == old(Blocks(h.heap))
    ensures r != 0 ==> r > 0 && AlignedIn(old(h.heap), h.heap, r, PassedSize(alignment, size))
    ensures r != 0 ==> (Holds(h.heap, r, size) <==> RoundedSize(alignment, size) < WORD)
    ensures r != 0 ==>
      (r % alignment == 0 <==> alignment == 8 || alignment <= NextAddr(old(h.heap), PassedSize(alignment, size)))
    ensures Ran(old(h.heap), MemalignOps(old(h.heap), alignment, PassedSize(alignment, size)), h.heap)
    ensures r == MemalignResult(old(h.heap), alignment, PassedSize(alignment, size))
  {
    hide WF, Placed, Blocks, Machine.Rep, Legal, Room, IsPow2, NextAddr, LiveByte, StartOf, WalkClear;
    hide Ran, MemalignOps, MemalignResult, MadeFor, AlignedIn, Holds, RoundedSize, AllRetired, DoMalloc;
    ghost var a := h.heap;
    r := Memalign(h, alignment, (size + alignment - size % alignment) % WORD);
    if r != 0 {
      ValidHeap(h);
      HoldsWhole(a, h.heap, r, alignment, size);
    }
  }

  /** A block for the rounded size holds the size asked for unless the rounding wrapped. */
  lemma HoldsWhole(a: Heap, a': Heap, r: int, alignment: nat, size: nat)
    requires WF(a') && IsPow2(alignment) && 0 < alignment < WORD && size < WORD && r > 0
    requires AlignedIn(a, a', r, PassedSize(alignment, size))
    ensures Holds(a', r, size) <==> RoundedSize(alignment, size) < WORD
  {
    hide WF, Blocks, IsPow2, LiveByte, StartOf, WalkClear, PassedSize;
    WrapIsZero(alignment, size);
    BlockBound(a', StartOf(a', r));
  }
}
