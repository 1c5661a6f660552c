/** Inputs on which the allocator does not do what its callers may expect, each reached from the
    initial state. The exact conditions are stated by Wrapper.Memalign, Wrapper.Realloc,
    Wrapper.AlignedAlloc and Views.InteriorPointer. */
module Witnesses {
  import opened Arith
  import opened Bits
  import opened Memory
  import opened SizeClass
  import opened Heap
  import opened Runs
  import opened Safety
  import opened RunSafety
  import opened Nuaf
  import opened Wrapper

  // ----- the first calls of a run

  /** The class of a request, from the sizes on both sides. */
  lemma ClassIs(n: nat, t: nat)
    requires t < NUM_BLOCK_TYPES && n <= Size(t) <= LARGEST_BLOCK_SIZE && (t > 0 ==> Size(t - 1) < n)
    ensures BlockType(n) == t && GrantSize(n) == Size(t)
  {
    hide Pow2, BlockType;
    BlockTypeIsLeast(n);
    if BlockType(n) < t { Pow2Monotone(MAGIC_NUMBER + BlockType(n), MAGIC_NUMBER + t - 1); }
  }

  lemma EmptyRoom(alignment: nat, size: nat, k: nat)
    requires alignment <= 0x100_0000_0000 && size <= 0x100_0000_0000 && k <= 8
    ensures Room(EMPTY, k, MemalignPages(alignment, size)) && Good(EMPTY)
  {
    EmptyWF();
    forall t | 0 <= t < NUM_BLOCK_TYPES ensures |EMPTY.page[t]| + k <= 0x200_0000 * PerPage(t) { }
  }

  lemma FirstAddr(n: nat)
    requires n <= LARGEST_BLOCK_SIZE
    ensures WF(EMPTY) && NextAddr(EMPTY, n) == 0x1_0000_0010
  {
    EmptyWF();
    BlockTypeIsLeast(n);
    assert EMPTY.stacks[BlockType(n)] == [] && EMPTY.page[BlockType(n)] == [];
  }

  /** The heap after the first malloc, of n bytes. */
  lemma FirstBlock(n: nat)
    requires n <= LARGEST_BLOCK_SIZE
    ensures WF(EMPTY) && Legal(EMPTY, Op.Malloc(n)) && Good(DoMalloc(EMPTY, n).0) && Room(DoMalloc(EMPTY, n).0, 7, 0)
    ensures var (a, p) := DoMalloc(EMPTY, n);
      && p in Blocks(a) && InSmall(a, p) && p / PAGE_SIZE == MIN_PAGE && a.high == MIN_PAGE + 1
      && MIN_PAGE in a.small && a.small[MIN_PAGE].cls == BlockType(n)
      && a.stacks == EMPTY.stacks && a.page == EMPTY.page[BlockType(n) := [MIN_PAGE]]
  {
    hide Blocks, WF, Placed, Room, Legal;
    EmptyRoom(0, 0, 8);
    RoomMalloc(EMPTY, n, 8, 0);
    FirstState(n);
    MallocBlocks(EMPTY, n);
  }

  lemma FirstState(n: nat)
    requires n <= LARGEST_BLOCK_SIZE
    ensures WF(EMPTY) && BlockType(n) < NUM_BLOCK_TYPES
    ensures var (a, p) := DoMalloc(EMPTY, n);
      && InSmall(a, p) && p / PAGE_SIZE == MIN_PAGE && a.high == MIN_PAGE + 1
      && MIN_PAGE in a.small && a.small[MIN_PAGE].cls == BlockType(n)
      && a.stacks == EMPTY.stacks && a.page == EMPTY.page[BlockType(n) := [MIN_PAGE]]
  {
    hide WF, BlockType;
    EmptyWF();
    BlockTypeIsLeast(n);
    var t := BlockType(n);
    assert EMPTY.stacks[t] == [] && EMPTY.page[t] == [] && EMPTY.page[t] + [EMPTY.high] == [MIN_PAGE];
    FirstObj(t);
    hide Size, Offset;
    assert DoMalloc(EMPTY, n) == (FreshPop(EMPTY, NewObj(EMPTY, t)), MIN_PAGE * PAGE_SIZE + Offset(t, 0));
    PageOffset(MIN_PAGE, HEADER);
  }

  lemma FirstObj(t: nat)
    requires t < NUM_BLOCK_TYPES
    ensures Offset(t, 0) == HEADER && Size(t) >= 16
  {
    OffsetBounds(t, 0);
  }

  /** The first block comes and goes, and a block of another class is on the third page. */
  lemma Scratched(n: nat, req: nat)
    requires n <= LARGEST_BLOCK_SIZE && req <= LARGEST_BLOCK_SIZE && BlockType(n) != BlockType(req)
    ensures WF(EMPTY) && Good(AfterScratch(EMPTY, n)) && Ran(EMPTY, ScratchOps(EMPTY, n), AfterScratch(EMPTY, n))
    ensures var a := AfterScratch(EMPTY, n);
      && Room(a, 6, 0) && Legal(a, Op.Malloc(req))
      && NextAddr(a, req) == (MIN_PAGE + 2) * PAGE_SIZE + BYTE_ALIGNMENT
  {
    hide Blocks, Legal, WF, Placed, Room, InSmall;
    EmptyRoom(0, 0, 8);
    FirstBlock(n);
    BlockTypeIsLeast(n);
    BlockTypeIsLeast(req);
    var (a1, p) := DoMalloc(EMPTY, n);
    StartPointer(a1, p);
    RoomFree(a1, p, 7, 0);
    FreeIsStepped(a1, p);
    ScratchRan(EMPTY, n, DoFree(a1, p));
    RoomMalloc(DoFree(a1, p), req, 6, 0);
    ThirdPage(a1, p, BlockType(n), req);
  }

  lemma ThirdPage(a: Heap, p: int, t: nat, req: nat)
    requires WF(a) && InSmall(a, p) && p / PAGE_SIZE == MIN_PAGE && a.high == MIN_PAGE + 1
    requires a.small[MIN_PAGE].cls == t && a.stacks == EMPTY.stacks && a.page == EMPTY.page[t := [MIN_PAGE]]
    requires t < NUM_BLOCK_TYPES && req <= LARGEST_BLOCK_SIZE && t != BlockType(req) && WF(DoFree(a, p))
    ensures NextAddr(DoFree(a, p), req) == (MIN_PAGE + 2) * PAGE_SIZE + BYTE_ALIGNMENT
  {
    hide WF, InSmall, InLarge, StartOf, Offset, Size, BlockType, Linked, EntryAddr;
    BlockTypeIsLeast(req);
    FirstObj(BlockType(req));
    FreeIs(a, p);
    var a', u := DoFree(a, p), BlockType(req);
    assert a'.high == MIN_PAGE + 2 && a'.stacks[u] == EMPTY.stacks[u] == [] && a'.page[u] == EMPTY.page[u] == [];
  }

  // ----- memalign

  /** memalign(2^40, 100), as the first call, returns a pointer that is not aligned. */
  lemma MemalignUnaligned()
    ensures Good(EMPTY) && Room(EMPTY, 3, MemalignPages(Pow2(40), 100))
    ensures MemalignResult(EMPTY, Pow2(40), 100) > 0 && MemalignResult(EMPTY, Pow2(40), 100) % Pow2(40) != 0
  {
    BigPower();
    EmptyRoom(Pow2(40), 100, 3);
    FirstAddr(100);
    SmallRemainder(NextAddr(EMPTY, 100), Pow2(40));
    hide Pow2, IsPow2, NextAddr;
    assert MemalignResult(EMPTY, Pow2(40), 100) == NextAddr(EMPTY, 100);
  }

  lemma BigPower()
    ensures Pow2(40) == 0x100_0000_0000 && IsPow2(Pow2(40))
  {
    assert Pow2(10) == 1024;
    Pow2Add(10, 10);
    Pow2Add(20, 20);
  }

  // ----- realloc

  /** realloc of any block to 2^63 bytes returns NULL, and the block is gone and its pages retired. */
  lemma ReallocLosesBlock(a: Heap, ptr: int, a': Heap)
    requires Good(a) && ptr in Blocks(a) && LiveByte(a, ptr) && Ran(a, ReallocOps(a, ptr, SIGN_BIT), a')
    ensures ReallocResult(a, ptr, SIGN_BIT) == 0
    ensures Blocks(a') == Blocks(a) - {ptr} && AllRetired(a, ptr, a')
  {
    hide WF, Placed, Blocks, Legal, Step, LiveByte, StartOf, Retired, ObjPage;
    StartPointer(a, ptr);
    OneOp(a, Op.Free(ptr), a');
    FreeStep(a, ptr);
  }

  lemma OneOp(a: Heap, op: Op, a': Heap)
    requires Ran(a, [op], a')
    ensures WF(a) && Legal(a, op) && a' == Step(a, op)
  {
    hide Legal, Step, WF;
    assert [op][1..] == [];
    StepWF(a, op);
    RanNone(Step(a, op));
  }

  lemma FreeStep(a: Heap, ptr: int)
    requires WF(a) && Legal(a, Op.Free(ptr)) && ptr in Blocks(a)
    requires LiveByte(a, ptr) && ptr > 0 && StartOf(a, ptr) == ptr
    ensures var a' := Step(a, Op.Free(ptr)); Blocks(a') == Blocks(a) - {ptr} && AllRetired(a, ptr, a')
  {
    hide Blocks, LiveByte, Retired, ObjPage;
    FreeBlocks(a, ptr);
    forall g | ObjPage(a, ptr, g) ensures Retired(DoFree(a, ptr), g) { FreeRetires(a, ptr, g); }
  }

  /** Reached from the start: malloc(100) is there, and after realloc to 2^63 bytes it is not. */
  lemma ReallocFails()
    ensures WF(EMPTY) && Ran(EMPTY, MallocOps(100), DoMalloc(EMPTY, 100).0)
    ensures var (a, p) := DoMalloc(EMPTY, 100);
      && Good(a) && Room(a, 2, 0) && p in Blocks(a) && LiveByte(a, p)
      && ReallocResult(a, p, SIGN_BIT) == 0 && LegalRun(a, ReallocOps(a, p, SIGN_BIT))
      && p !in Blocks(Run(a, ReallocOps(a, p, SIGN_BIT)))
  {
    hide Blocks, WF, Placed, Legal, Room, DoMalloc, LiveByte, StartOf, AllRetired;
    FirstBlock(100);
    MallocRan(EMPTY, 100);
    var (a, p) := DoMalloc(EMPTY, 100);
    StartPointer(a, p);
    LessRoom(a, 7, 2);
    RanFree(a, p, 7, 0);
    ReallocLosesBlock(a, p, Step(a, Op.Free(p)));
  }

  lemma LessRoom(a: Heap, k: nat, k': nat)
    requires Room(a, k, 0) && k' <= k
    ensures Room(a, k', 0)
  {
  }

  /** memalign(64, 100) as the first call: 208 bytes from the pointer on, in a block of 256. */
  lemma AdjustedPointer()
    ensures WF(EMPTY) && LegalRun(EMPTY, MemalignOps(EMPTY, 64, 100))
    ensures var a, p := Run(EMPTY, MemalignOps(EMPTY, 64, 100)), MemalignResult(EMPTY, 64, 100);
      && Good(a) && Room(a, 5, 0) && LiveByte(a, p) && WalkClear(a, p) && p > 0
      && |BlockOf(a, p)| == 256 && p == StartOf(a, p) + 48
  {
    hide WF, Placed, Blocks, Legal, Room, DoMalloc, AfterScratch, NextAddr, LiveByte, StartOf, WalkClear;
    hide Pow2, IsPow2, Size, BlockType, RoundUp, GrantSize, ScratchOps, Ran;
    Classes();
    FirstAddr(100);
    Scratched(100, 228);
    var b := AfterScratch(EMPTY, 100);
    var q := NextAddr(b, 228);
    RoomMalloc(b, 228, 6, 0);
    RanStep(EMPTY, ScratchOps(EMPTY, 100), b, Op.Malloc(228));
    MallocStep(b, 228);
    assert MallocOps(228) == [Op.Malloc(228)];
    RoundedResult(b, 100, 64, q + 48);
    RoundedStart(b, 228, q + 48);
    RanIs(EMPTY, MemalignOps(EMPTY, 64, 100), DoMalloc(b, 228).0);
  }

  lemma RanIs(a: Heap, ops: seq<Op>, a': Heap)
    requires Ran(a, ops, a')
    ensures WF(a) && LegalRun(a, ops) && Run(a, ops) == a'
  {
  }

  lemma Classes()
    ensures BlockType(100) == 3 && BlockType(228) == 4 && GrantSize(228) == 256 && IsPow2(64)
    ensures RoundUp((MIN_PAGE + 2) * PAGE_SIZE + BYTE_ALIGNMENT, 64) == (MIN_PAGE + 2) * PAGE_SIZE + BYTE_ALIGNMENT + 48
  {
    hide BlockType, GrantSize;
    Is64();
    SizeValues();
    hide Pow2, IsPow2;
    ClassIs(100, 3);
    ClassIs(228, 4);
  }

  lemma Is64()
    ensures IsPow2(64)
  {
    assert Pow2(6) == 64;
  }

  /** The block that a fresh pointer's neighbour is in begins at the fresh pointer. */
  lemma RoundedStart(a: Heap, n: nat, r: int)
    requires Good(a) && Legal(a, Op.Malloc(n)) && NextAddr(a, n) <= r < NextAddr(a, n) + n
    ensures var a' := DoMalloc(a, n).0; LiveByte(a', r) && StartOf(a', r) == NextAddr(a, n)
  {
    hide WF, Placed, Blocks, Legal, DoMalloc, LiveByte, StartOf;
    MallocBlocks(a, n);
    StepGood(a, Op.Malloc(n));
    ByteOf(DoMalloc(a, n).0, NextAddr(a, n), r - NextAddr(a, n));
  }

  /** realloc of that pointer to 300 bytes would copy 256 of them, past the block. */
  lemma ReallocCopiesPast()
    ensures WF(EMPTY) && LegalRun(EMPTY, MemalignOps(EMPTY, 64, 100))
    ensures var a, p := Run(EMPTY, MemalignOps(EMPTY, 64, 100)), MemalignResult(EMPTY, 64, 100);
      LiveByte(a, p) && WalkClear(a, p) && !CopyInside(a, p, 300)
  {
    hide WF, Placed, Blocks, Legal, Room, LegalRun, Run, MemalignOps, MemalignResult, LiveByte, StartOf, WalkClear;
    AdjustedPointer();
    SizeValues();
    ClassIs(300, 5);
  }

  /** realloc of that pointer to 250 bytes keeps it, with 208 bytes from it on. */
  lemma ReallocTooShort()
    ensures WF(EMPTY) && LegalRun(EMPTY, MemalignOps(EMPTY, 64, 100))
    ensures var a, p := Run(EMPTY, MemalignOps(EMPTY, 64, 100)), MemalignResult(EMPTY, 64, 100);
      && LiveByte(a, p) && WalkClear(a, p) && CopyInside(a, p, 250) && Room(a, 2, 0)
      && ReallocResult(a, p, 250) == p && LegalRun(a, ReallocOps(a, p, 250))
      && !Holds(Run(a, ReallocOps(a, p, 250)), p, 250)
  {
    hide WF, Placed, Blocks, Legal, Room, MemalignOps, MemalignResult, LiveByte, StartOf, WalkClear, Holds;
    AdjustedPointer();
    SizeValues();
    ClassIs(250, 4);
    var a, p := Run(EMPTY, MemalignOps(EMPTY, 64, 100)), MemalignResult(EMPTY, 64, 100);
    LessRoom(a, 5, 2);
    KeptRun(a, p, 250);
  }

  /** A realloc that keeps its pointer leaves the blocks as they were. */
  lemma KeptRun(a: Heap, p: int, sz: nat)
    requires Good(a) && Room(a, 2, 0) && LiveByte(a, p) && WalkClear(a, p) && p > 0
    requires 0 < sz <= LARGEST_BLOCK_SIZE && GrantSize(sz) == |BlockOf(a, p)|
    ensures LegalRun(a, ReallocOps(a, p, sz)) && WF(Run(a, ReallocOps(a, p, sz)))
    ensures Holds(Run(a, ReallocOps(a, p, sz)), p, sz) <==> p + sz <= StartOf(a, p) + |BlockOf(a, p)|
  {
    hide WF, Placed, Blocks, Legal, Step, Room, LiveByte, StartOf, WalkClear, Holds, GrantSize, DoMalloc;
    RoomMalloc(a, sz, 2, 0);
    FreshResult(a, sz);
    var (a1, x) := DoMalloc(a, sz);
    StartPointer(a1, x);
    RoomFree(a1, x, 1, 0);
    FreeBlocks(a1, x);
    RanOne(a, Op.Malloc(sz));
    MallocStep(a, sz);
    RanStep(a, [Op.Malloc(sz)], a1, Op.Free(x));
    assert ReallocOps(a, p, sz) == [Op.Malloc(sz)] + [Op.Free(x)];
    LiveByteInBlock(a, p);
    FreeIsStepped(a1, x);
    KeptIs(Blocks(a), Blocks(DoFree(a1, x)), StartOf(a, p), p, sz);
    ReallocHolds(DoFree(a1, x), Blocks(a), StartOf(a, p), p, p, sz);
  }

  lemma MallocStep(a: Heap, n: nat)
    requires WF(a) && Legal(a, Op.Malloc(n))
    ensures Step(a, Op.Malloc(n)) == DoMalloc(a, n).0
  {
  }

  lemma FreeIsStepped(a: Heap, x: int)
    requires WF(a) && Legal(a, Op.Free(x))
    ensures Step(a, Op.Free(x)) == DoFree(a, x)
  {
  }

  // ----- aligned_alloc

  /** aligned_alloc(16, 2^64 - 1), as the first call, returns a pointer to a block smaller than that. */
  lemma AlignedAllocTooSmall()
    ensures WF(EMPTY) && Room(EMPTY, 3, MemalignPages(16, PassedSize(16, WORD - 1)))
    ensures var n := PassedSize(16, WORD - 1);
      && MemalignResult(EMPTY, 16, n) > 0 && LegalRun(EMPTY, MemalignOps(EMPTY, 16, n))
      && !Holds(Run(EMPTY, MemalignOps(EMPTY, 16, n)), MemalignResult(EMPTY, 16, n), WORD - 1)
  {
    hide WF, Placed, Blocks, Legal, Room, DoMalloc, AfterScratch, NextAddr;
    hide LiveByte, StartOf, WalkClear, Holds, AlignedIn;
    SizeValues();
    WrappedRequest();
    EmptyRoom(16, 0, 3);
    ClassIs(0, 0);
    ClassIs(32, 1);
    FirstAddr(0);
    Scratched(0, 32);
    var b := AfterScratch(EMPTY, 0);
    var q := NextAddr(b, 32);
    RoomMalloc(b, 32, 6, 0);
    RanStep(EMPTY, ScratchOps(EMPTY, 0), b, Op.Malloc(32));
    assert MallocOps(32) == [Op.Malloc(32)];
    RoundedResult(b, 0, 16, q);
    assert RoundUp(q, 16) == q;
    HoldsWhole(b, DoMalloc(b, 32).0, q, 16, WORD - 1);
    hide Pow2, IsPow2;
  }

  lemma WrappedRequest()
    ensures PassedSize(16, WORD - 1) == 0 && RoundedSize(16, WORD - 1) >= WORD && IsPow2(16)
  {
    assert Pow2(4) == 16;
  }

  // ----- the walk down a large object

  function Filled(o: LargeObj, i: nat, d: seq<byte>): LargeObj
    requires i + |d| <= |o.data|
  {
    o.(data := Splice(o.data, i, d))
  }

  /** Writes inside a live large object are a legal run and leave its bytes as written. */
  lemma {:induction false} WritesLand(a: Heap, p: int, i: nat, d: seq<byte>)
    requires WF(a) && p in a.large && i + |d| <= |a.large[p].data|
    ensures LegalRun(a, Writes(LargeAddr(p) + i, d))
    ensures Run(a, Writes(LargeAddr(p) + i, d)) == a.(large := a.large[p := Filled(a.large[p], i, d)])
    decreases |d|
  {
    hide WF, LiveByte;
    var ops := Writes(LargeAddr(p) + i, d);
    if d == [] {
      assert Splice(a.large[p].data, i, d) == a.large[p].data;
      assert a.large[p := a.large[p]] == a.large;
    } else {
      var a1 := WriteLarge(a, p, i, d[0]);
      WriteLands(a, p, i, d[0]);
      WritesLand(a1, p, i + 1, d[1..]);
      assert ops[1..] == Writes(LargeAddr(p) + i + 1, d[1..]);
      assert Splice(Poke(a.large[p].data, i, d[0]), i + 1, d[1..]) == Splice(a.large[p].data, i, d);
      assert a1.large[p := Filled(a1.large[p], i + 1, d[1..])] == a.large[p := Filled(a.large[p], i, d)];
    }
  }

  lemma WriteLands(a: Heap, p: int, i: nat, b: byte)
    requires WF(a) && p in a.large && i < |a.large[p].data|
    ensures Legal(a, Op.Write(LargeAddr(p) + i, b))
    ensures Step(a, Op.Write(LargeAddr(p) + i, b)) == WriteLarge(a, p, i, b) && WF(WriteLarge(a, p, i, b))
  {
    var x := LargeAddr(p) + i;
    assert LargeOk(a, p);
    assert p <= x / PAGE_SIZE < p + a.large[p].numPages;
    RangesApart(a, x / PAGE_SIZE);
    WriteLargeWF(a, p, i, b);
  }

  /** malloc(5000), and the client stores the magic word in its block, at the start of the second
      page. */
  function AstrayOps(): seq<Op> {
    [Op.Malloc(5000)] + Writes((LARGE_PAGE + 1) * PAGE_SIZE, Encode(LARGE_OBJ_START_MAGIC, 8))
  }

  /** From then on a pointer further into that page does not lead back to the first one. */
  lemma MagicLeadsAstray()
    ensures WF(EMPTY) && LegalRun(EMPTY, AstrayOps())
    ensures var a, x := Run(EMPTY, AstrayOps()), (LARGE_PAGE + 1) * PAGE_SIZE + 100;
      LiveByte(a, x) && !InSmall(a, x) && !WalkClear(a, x) && StopPage(a, x) != a.lpage[x / PAGE_SIZE]
  {
    hide WF, Writes, WalkClear, StopPage, LiveByte, InSmall;
    EmptyWF();
    FirstLarge();
    var p, w := LARGE_PAGE, Encode(LARGE_OBJ_START_MAGIC, 8);
    var a1 := MallocBig(EMPTY, 2);
    WritesLand(a1, p, PAGE_SIZE - HEADER, w);
    assert AstrayOps()[1..] == Writes(LargeAddr(p) + (PAGE_SIZE - HEADER), w);
    StopsAtSecond(Run(EMPTY, AstrayOps()), w);
  }

  lemma FirstLarge()
    ensures WF(EMPTY) && Legal(EMPTY, Op.Malloc(5000)) && Step(EMPTY, Op.Malloc(5000)) == MallocBig(EMPTY, 2)
    ensures WF(MallocBig(EMPTY, 2)) && MallocBig(EMPTY, 2).small == map[]
    ensures MallocBig(EMPTY, 2).large == map[LARGE_PAGE := LargeObj(2, Zeros(2 * PAGE_SIZE - HEADER))]
  {
    EmptyWF();
    MallocBigWF(EMPTY, 2);
  }

  lemma StopsAtSecond(a: Heap, w: seq<byte>)
    requires w == Encode(LARGE_OBJ_START_MAGIC, 8) && WF(a) && a.small == map[]
    requires var o := LargeObj(2, Zeros(2 * PAGE_SIZE - HEADER));
      a.large == map[LARGE_PAGE := Filled(o, PAGE_SIZE - HEADER, w)]
    ensures var x := (LARGE_PAGE + 1) * PAGE_SIZE + 100;
      LiveByte(a, x) && !InSmall(a, x) && !WalkClear(a, x) && StopPage(a, x) != a.lpage[x / PAGE_SIZE]
  {
    hide Encode, Decode;
    var x, p := (LARGE_PAGE + 1) * PAGE_SIZE + 100, LARGE_PAGE;
    var o := a.large[p];
    PageOffset(p + 1, 100);
    assert LargeOk(a, p) && a.lpage[p + 1] == p;
    SpliceReads(Zeros(2 * PAGE_SIZE - HEADER), PAGE_SIZE - HEADER, w);
    Pow256Values();
    DecodeEncode(LARGE_OBJ_START_MAGIC, 8);
    assert MagicAt(o, 1);
    assert WalkStop(o, 1) == 1;
  }
}
