/** Client operations on the abstract allocator and what holds of every run of them. */
module Runs {
  import opened Memory
  import opened SizeClass
  import opened Heap

  // ----- where the objects are

  /** x lies in a live small object. */
  predicate InSmall(a: Heap, x: int) {
    var v := x / PAGE_SIZE;
    v in a.small && a.small[v].live && SmallAddr(a, v) <= x < SmallAddr(a, v) + |a.small[v].data|
  }

  /** x lies in a live large object. */
  predicate InLarge(a: Heap, x: int) {
    && x / PAGE_SIZE in a.lpage && a.lpage[x / PAGE_SIZE] in a.large
    && (var p := a.lpage[x / PAGE_SIZE]; LargeAddr(p) <= x < LargeAddr(p) + |a.large[p].data|)
  }

  predicate LiveByte(a: Heap, x: int) {
    InSmall(a, x) || InLarge(a, x)
  }

  /** The start of the object holding the live byte x. */
  function StartOf(a: Heap, x: int): int
    requires LiveByte(a, x)
  {
    if InSmall(a, x) then SmallAddr(a, x / PAGE_SIZE) else LargeAddr(a.lpage[x / PAGE_SIZE])
  }

  ghost predicate SmallStart(a: Heap, x: int) {
    var v := x / PAGE_SIZE;
    v in a.small && a.small[v].live && x == SmallAddr(a, v)
  }

  ghost predicate LargeStart(a: Heap, x: int) {
    x / PAGE_SIZE in a.large && x == LargeAddr(x / PAGE_SIZE)
  }

  ghost function BlockData(a: Heap, x: int): seq<byte> {
    var g := x / PAGE_SIZE;
    if g in a.small then a.small[g].data else if g in a.large then a.large[g].data else []
  }

  /** The client's view: live blocks and their contents, by start address. */
  ghost function Blocks(a: Heap): map<int, seq<byte>> {
    map x | 0 <= x < a.largeHigh * PAGE_SIZE && (SmallStart(a, x) || LargeStart(a, x)) :: BlockData(a, x)
  }

  lemma InStarts(a: Heap, x: int)
    requires WF(a)
    ensures x in Blocks(a) <==> SmallStart(a, x) || LargeStart(a, x)
    ensures !(SmallStart(a, x) && LargeStart(a, x))
    ensures SmallStart(a, x) ==> Blocks(a)[x] == a.small[x / PAGE_SIZE].data
    ensures LargeStart(a, x) ==> Blocks(a)[x] == a.large[x / PAGE_SIZE].data
  {
    if x / PAGE_SIZE in a.large { assert LargeOk(a, x / PAGE_SIZE); }
    if x / PAGE_SIZE in a.small { assert SmallOk(a, x / PAGE_SIZE); }
  }

  /** Small and large pages come from separate ranges, both below their counters. */
  lemma RangesApart(a: Heap, g: int)
    requires WF(a)
    ensures g in a.small ==> MIN_PAGE <= g < a.high && g !in a.lpage
    ensures g in a.lpage ==> LARGE_PAGE <= g < a.largeHigh && g !in a.small
    ensures g in a.large ==> g in a.lpage
  {
    if g in a.large { assert LargeOk(a, g); }
    if g in a.small { assert SmallOk(a, g); }
    if g in a.lpage { assert LargeOk(a, a.lpage[g]); }
  }

  /** Live bytes are exactly the bytes of the blocks, and StartOf finds the block. */
  lemma LiveByteInBlock(a: Heap, x: int)
    requires WF(a)
    ensures LiveByte(a, x) ==>
      StartOf(a, x) in Blocks(a) && StartOf(a, x) <= x < StartOf(a, x) + |Blocks(a)[StartOf(a, x)]|
    ensures forall q :: q in Blocks(a) && q <= x < q + |Blocks(a)[q]| ==> LiveByte(a, x) && StartOf(a, x) == q
  {
    if LiveByte(a, x) {
      var g := x / PAGE_SIZE;
      if InSmall(a, x) {
        assert SmallOk(a, g);
        assert SmallAddr(a, g) / PAGE_SIZE == g;
        InStarts(a, SmallAddr(a, g));
      } else {
        var p := a.lpage[g];
        assert LargeOk(a, p);
        assert LargeAddr(p) / PAGE_SIZE == p;
        InStarts(a, LargeAddr(p));
      }
    }
    forall q | q in Blocks(a) && q <= x < q + |Blocks(a)[q]| ensures LiveByte(a, x) && StartOf(a, x) == q {
      InStarts(a, q);
      var g := q / PAGE_SIZE;
      if SmallStart(a, q) {
        assert SmallOk(a, g);
        assert x / PAGE_SIZE == g;
        assert InSmall(a, x);
      } else {
        assert LargeOk(a, g);
        assert g <= x / PAGE_SIZE < g + a.large[g].numPages;
        assert x / PAGE_SIZE in a.lpage && a.lpage[x / PAGE_SIZE] == g;
        RangesApart(a, x / PAGE_SIZE);
      }
    }
  }

  /** Live blocks are pairwise disjoint. */
  lemma BlocksDisjoint(a: Heap, q: int, r: int)
    requires WF(a) && q in Blocks(a) && r in Blocks(a) && q != r
    ensures q + |Blocks(a)[q]| <= r || r + |Blocks(a)[r]| <= q
  {
    if q < r < q + |Blocks(a)[q]| {
      LiveByteInBlock(a, r);
      BlockNonEmpty(a, r);
    } else if r < q < r + |Blocks(a)[r]| {
      LiveByteInBlock(a, q);
      BlockNonEmpty(a, q);
    }
  }

  lemma BlockNonEmpty(a: Heap, q: int)
    requires WF(a) && q in Blocks(a)
    ensures |Blocks(a)[q]| >= 16
  {
    InStarts(a, q);
    if SmallStart(a, q) { assert SmallOk(a, q / PAGE_SIZE); } else { assert LargeOk(a, q / PAGE_SIZE); }
  }

  predicate MappedPage(a: Heap, g: int) {
    g in a.small || g in a.lpage
  }

  /** Every byte of a live block is in a mapped page and clear of that block's header. */
  lemma BlockInsidePages(a: Heap, q: int, x: int)
    requires WF(a) && q in Blocks(a) && q <= x < q + |Blocks(a)[q]|
    ensures MappedPage(a, x / PAGE_SIZE)
    ensures x >= q / PAGE_SIZE * PAGE_SIZE + HEADER
    ensures x / PAGE_SIZE in a.small ==> x / PAGE_SIZE == q / PAGE_SIZE
    ensures x / PAGE_SIZE in a.lpage ==> a.lpage[x / PAGE_SIZE] == q / PAGE_SIZE
  {
    LiveByteInBlock(a, x);
    InStarts(a, q);
    if SmallStart(a, q) {
      assert SmallOk(a, q / PAGE_SIZE);
    } else {
      assert LargeOk(a, q / PAGE_SIZE);
    }
    RangesApart(a, x / PAGE_SIZE);
  }

  // ----- the walk down a large object

  /** Page j of a large object begins with the magic word. */
  predicate MagicAt(o: LargeObj, j: nat)
    requires |o.data| == o.numPages * PAGE_SIZE - HEADER && 1 <= j < o.numPages
  {
    Decode(o.data[j * PAGE_SIZE - HEADER..j * PAGE_SIZE - HEADER + 8]) == LARGE_OBJ_START_MAGIC
  }

  /** The page, counted from the first, at which the walk from page j stops. */
  function WalkStop(o: LargeObj, j: nat): (k: nat)
    requires |o.data| == o.numPages * PAGE_SIZE - HEADER && j < o.numPages
    ensures k <= j
  {
    if j == 0 || MagicAt(o, j) then j else WalkStop(o, j - 1)
  }

  /** The walk reaches the first page if and only if no page on the way begins with the magic word. */
  lemma {:induction false} WalkReachesStart(o: LargeObj, j: nat)
    requires |o.data| == o.numPages * PAGE_SIZE - HEADER && j < o.numPages
    ensures WalkStop(o, j) == 0 <==> forall i {:trigger MagicAt(o, i)} :: 1 <= i <= j ==> !MagicAt(o, i)
  {
    if j == 0 || MagicAt(o, j) {
    } else {
      WalkReachesStart(o, j - 1);
    }
  }

  /** The word at the start of page j, after the first, of a large object. */
  function PageWord(o: LargeObj, j: nat): nat
    requires |o.data| == o.numPages * 4096 - 16 && 1 <= j < o.numPages
  {
    Decode(o.data[j * 4096 - 16..j * 4096 - 8])
  }

  lemma MagicIs(o: LargeObj, j: nat)
    requires |o.data| == o.numPages * 4096 - 16 && 1 <= j < o.numPages
    ensures MagicAt(o, j) <==> PageWord(o, j) == 0xC001BE9
  {
  }

  /** Where the walk stops, exactly: at the last page, from j down, whose first word is 0xC001BE9,
      and at the first page of the object when there is none. */
  lemma {:induction false} WalkStopExact(o: LargeObj, j: nat, k: nat)
    requires |o.data| == o.numPages * 4096 - 16 && k <= j < o.numPages
    ensures WalkStop(o, j) == k <==>
      (k > 0 ==> PageWord(o, k) == 0xC001BE9) && forall i :: k < i <= j ==> PageWord(o, i) != 0xC001BE9
  {
    hide MagicAt, PageWord;
    if j > 0 { MagicIs(o, j); }
    if j == 0 || MagicAt(o, j) {
    } else if k < j {
      WalkStopExact(o, j - 1, k);
    }
  }

  /** The walk from the live byte x ends at the first page of its object. */
  predicate WalkClear(a: Heap, x: int)
    requires LiveByte(a, x)
  {
    !InSmall(a, x) ==>
      var p := a.lpage[x / PAGE_SIZE];
      p in a.large && p <= x / PAGE_SIZE < p + a.large[p].numPages
      && |a.large[p].data| == a.large[p].numPages * PAGE_SIZE - HEADER
      && WalkStop(a.large[p], x / PAGE_SIZE - p) == 0
  }

  // ----- operations and runs

  datatype Op = Malloc(size: nat) | Free(ptr: int) | Write(addr: int, b: byte)

  /** What the client must respect: sizes with the sign bit clear, frees and writes inside live
      objects, and a walk that is not led astray. */
  predicate Disciplined(a: Heap, op: Op) {
    match op
    case Malloc(n) => n < SIGN_BIT
    case Free(x) => x == 0 || (LiveByte(a, x) && WalkClear(a, x))
    case Write(x, _) => LiveByte(a, x)
  }

  predicate PopFits(a: Heap, t: nat)
    requires t < NUM_BLOCK_TYPES == |a.stacks| == |a.page|
  {
    a.stacks[t] == [] ==> a.high < LARGE_PAGE && |a.page[t]| < 0x200_0000 * PerPage(t)
  }

  /** The address ranges and the backing file do not run out. */
  predicate Fits(a: Heap, op: Op)
    requires |a.stacks| == |a.page| == NUM_BLOCK_TYPES
  {
    match op
    case Malloc(n) =>
      if n > LARGEST_BLOCK_SIZE then a.largeHigh + NumPages(n) <= MAX_PAGE
      else BlockTypeIsLeast(n); PopFits(a, BlockType(n))
    case Free(x) => InSmall(a, x) ==> a.high < LARGE_PAGE
    case Write(_, _) => true
  }

  ghost predicate Legal(a: Heap, op: Op)
    requires WF(a)
  {
    Disciplined(a, op) && Fits(a, op)
  }

  ghost predicate PlacedObj(o: SmallObj) {
    o.cls < NUM_BLOCK_TYPES && o.off == Offset(o.cls, o.idx) && |o.data| == Size(o.cls)
  }

  /** Objects are where the closed form of the bump pointer puts them. */
  ghost predicate Placed(a: Heap)
    requires Shape(a)
  {
    && (forall v :: v in a.small ==> PlacedObj(a.small[v]))
    && (forall t :: 0 <= t < NUM_BLOCK_TYPES ==> |a.page[t]| <= 0x200_0000 * PerPage(t))
  }

  ghost predicate Good(a: Heap) {
    WF(a) && Placed(a)
  }

  ghost function Pop(a: Heap, t: nat): (Heap, int)
    requires WF(a) && t < NUM_BLOCK_TYPES
  {
    if a.stacks[t] == [] then (FreshPop(a, NewObj(a, t)), a.high * PAGE_SIZE + Offset(t, |a.page[t]|))
    else
      assert StackOk(a, t);
      assert FreeEntry(a, t, a.stacks[t][0]);
      (ListPop(a, t), SmallAddr(a, a.stacks[t][0]))
  }

  ghost function DoMalloc(a: Heap, n: nat): (Heap, int)
    requires WF(a)
  {
    if n > LARGEST_BLOCK_SIZE then (MallocBig(a, NumPages(n)), LargeAddr(a.largeHigh))
    else
      BlockTypeIsLeast(n);
      Pop(a, BlockType(n))
  }

  ghost function DoFree(a: Heap, x: int): Heap
    requires WF(a) && (x == 0 || LiveByte(a, x))
  {
    if x == 0 then a
    else if InSmall(a, x) then
      FreeSmallReady(a, x / PAGE_SIZE);
      FreeSmall(a, x / PAGE_SIZE)
    else FreeBig(a, a.lpage[x / PAGE_SIZE])
  }

  lemma FreeSmallReady(a: Heap, v: int)
    requires WF(a) && v in a.small && a.small[v].live
    ensures SmallOk(a, v) && StackOk(a, a.small[v].cls)
    ensures var s := a.stacks[a.small[v].cls]; s != [] ==> FreeEntry(a, a.small[v].cls, s[0]) && s[0] >= 0
  {
    assert SmallOk(a, v);
    assert StackOk(a, a.small[v].cls);
  }

  ghost function DoWrite(a: Heap, x: int, b: byte): Heap
    requires LiveByte(a, x)
  {
    var i := x - StartOf(a, x);
    if InSmall(a, x) then WriteSmall(a, x / PAGE_SIZE, i, b)
    else WriteLarge(a, a.lpage[x / PAGE_SIZE], i, b)
  }

  ghost function Step(a: Heap, op: Op): Heap
    requires WF(a) && Legal(a, op)
  {
    match op
    case Malloc(n) => DoMalloc(a, n).0
    case Free(x) => DoFree(a, x)
    case Write(x, b) => DoWrite(a, x, b)
  }
}
