/** Theorems about single client operations and about every run of them. */
module Safety {
  import opened Arith
  import opened Memory
  import opened SizeClass
  import opened Heap
  import opened Runs

  // ----- each operation keeps the invariant

  lemma StepWF(a: Heap, op: Op)
    requires WF(a) && Legal(a, op)
    ensures WF(Step(a, op))
  {
    match op
    case Malloc(n) =>
      if n > LARGEST_BLOCK_SIZE {
        MallocBigWF(a, NumPages(n));
      } else {
        BlockTypeIsLeast(n);
        PopWF(a, BlockType(n));
      }
    case Free(x) => FreeWF(a, x);
    case Write(x, b) => WriteWF(a, x, b);
  }

  lemma PopWF(a: Heap, t: nat)
    requires WF(a) && t < NUM_BLOCK_TYPES && PopFits(a, t)
    ensures WF(Pop(a, t).0)
    ensures a.stacks[t] != [] ==> FreeEntry(a, t, a.stacks[t][0]) && SmallOk(a, a.stacks[t][0])
  {
    if a.stacks[t] == [] {
      OffsetBounds(t, |a.page[t]|);
      FreshPopWF(a, NewObj(a, t));
    } else {
      assert StackOk(a, t);
      ListPopWF(a, t);
    }
  }

  lemma FreeWF(a: Heap, x: int)
    requires WF(a) && Legal(a, Op.Free(x))
    ensures WF(DoFree(a, x))
  {
    if x != 0 {
      if InSmall(a, x) { FreeSmallWF(a, x / PAGE_SIZE); } else { FreeBigWF(a, a.lpage[x / PAGE_SIZE]); }
    }
  }

  lemma WriteWF(a: Heap, x: int, b: byte)
    requires WF(a) && LiveByte(a, x)
    ensures WF(DoWrite(a, x, b))
  {
    if InSmall(a, x) {
      WriteSmallWF(a, x / PAGE_SIZE, x - StartOf(a, x), b);
    } else {
      WriteLargeWF(a, a.lpage[x / PAGE_SIZE], x - StartOf(a, x), b);
    }
  }

  // ----- and every object in its place

  ghost predicate SamePlace(o: SmallObj, o': SmallObj) {
    o'.cls == o.cls && o'.idx == o.idx && o'.off == o.off && |o'.data| == |o.data|
  }

  ghost predicate CameFrom(a: Heap, o: SmallObj) {
    exists w :: w in a.small && SamePlace(a.small[w], o)
  }

  lemma PlacedFrame(a: Heap, a': Heap)
    requires Shape(a) && Shape(a') && Placed(a)
    requires forall v :: v in a'.small ==> CameFrom(a, a'.small[v]) || PlacedObj(a'.small[v])
    requires forall t :: 0 <= t < NUM_BLOCK_TYPES ==>
      |a'.page[t]| == |a.page[t]| || |a'.page[t]| <= 0x200_0000 * PerPage(t)
    ensures Placed(a')
  {
    forall v | v in a'.small ensures PlacedObj(a'.small[v]) {
      if CameFrom(a, a'.small[v]) {
        var w :| w in a.small && SamePlace(a.small[w], a'.small[v]);
        assert PlacedObj(a.small[w]);
      }
    }
  }

  lemma PopPlaced(a: Heap, t: nat)
    requires WF(a) && Placed(a) && t < NUM_BLOCK_TYPES && PopFits(a, t) && WF(Pop(a, t).0)
    ensures Placed(Pop(a, t).0)
  {
    var a' := Pop(a, t).0;
    forall v | v in a'.small ensures CameFrom(a, a'.small[v]) || PlacedObj(a'.small[v]) {
      if v in a.small && SamePlace(a.small[v], a'.small[v]) {
      } else {
        assert v == a.high && a'.small[v] == NewObj(a, t);
      }
    }
    PlacedFrame(a, a');
  }

  lemma FreeSmallPlaced(a: Heap, v: int)
    requires WF(a) && Placed(a) && v in a.small && a.small[v].live && a.high < LARGE_PAGE
    requires SmallOk(a, v) && StackOk(a, a.small[v].cls) && WF(FreeSmall(a, v))
    ensures Placed(FreeSmall(a, v))
  {
    var a' := FreeSmall(a, v);
    forall w | w in a'.small ensures CameFrom(a, a'.small[w]) {
      assert SamePlace(a.small[if w == a.high then v else w], a'.small[w]);
    }
    PlacedFrame(a, a');
  }

  lemma WritePlaced(a: Heap, x: int, b: byte)
    requires WF(a) && Placed(a) && LiveByte(a, x) && WF(DoWrite(a, x, b))
    ensures Placed(DoWrite(a, x, b))
  {
    var a' := DoWrite(a, x, b);
    forall v | v in a'.small ensures CameFrom(a, a'.small[v]) {
      assert SamePlace(a.small[v], a'.small[v]);
    }
    PlacedFrame(a, a');
  }

  lemma StepPlaced(a: Heap, op: Op)
    requires WF(a) && Legal(a, op) && Placed(a) && WF(Step(a, op))
    ensures Placed(Step(a, op))
  {
    match op
    case Malloc(n) =>
      if n <= LARGEST_BLOCK_SIZE {
        BlockTypeIsLeast(n);
        PopPlaced(a, BlockType(n));
      }
    case Free(x) =>
      if x != 0 && InSmall(a, x) {
        FreeSmallReady(a, x / PAGE_SIZE);
        FreeSmallPlaced(a, x / PAGE_SIZE);
      }
    case Write(x, b) => WritePlaced(a, x, b);
  }

  lemma StepGood(a: Heap, op: Op)
    requires Good(a) && Legal(a, op)
    ensures Good(Step(a, op))
  {
    StepWF(a, op);
    StepPlaced(a, op);
  }

  // ----- the client's view

  ghost predicate SamePage(a: Heap, a': Heap, g: int) {
    && (g in a.small <==> g in a'.small) && (g in a.small ==> a'.small[g] == a.small[g])
    && (g in a.large <==> g in a'.large) && (g in a.large ==> a'.large[g] == a.large[g])
  }

  /** A block on an unchanged page is unchanged. */
  lemma SameBlock(a: Heap, a': Heap, q: int)
    requires WF(a) && WF(a') && SamePage(a, a', q / PAGE_SIZE)
    ensures q in Blocks(a) <==> q in Blocks(a')
    ensures q in Blocks(a) ==> Blocks(a')[q] == Blocks(a)[q]
  {
    InStarts(a, q);
    InStarts(a', q);
  }

  /** If only the page of r changed, only the block at r can have changed. */
  lemma OneBlock(a: Heap, a': Heap, r: int)
    requires WF(a) && WF(a') && r in Blocks(a')
    requires forall g :: g != r / PAGE_SIZE ==> SamePage(a, a', g)
    requires r !in Blocks(a) ==> forall q :: q in Blocks(a) ==> q / PAGE_SIZE != r / PAGE_SIZE
    ensures Blocks(a') == Blocks(a)[r := Blocks(a')[r]]
  {
    forall q | q != r ensures q in Blocks(a) <==> q in Blocks(a')
                      ensures q in Blocks(a) ==> Blocks(a')[q] == Blocks(a)[q]
    {
      if q / PAGE_SIZE == r / PAGE_SIZE {
        OnePerPage(a', q, r);
        if r in Blocks(a) { OnePerPage(a, q, r); }
      } else {
        SameBlock(a, a', q);
      }
    }
  }

  /** No two blocks start on the same page. */
  lemma OnePerPage(a: Heap, q: int, r: int)
    requires WF(a) && r in Blocks(a) && q != r && q / PAGE_SIZE == r / PAGE_SIZE
    ensures q !in Blocks(a)
  {
    InStarts(a, q);
    InStarts(a, r);
    RangesApart(a, r / PAGE_SIZE);
  }

  /** The size promise: a request of n bytes gets at least n; a small one the least size of a
      class that holds it, a large one all of its pages but the header. */
  predicate Grants(n: nat, len: nat) {
    && n <= len
    && (n <= LARGEST_BLOCK_SIZE ==> len == Size(BlockType(n)))
    && (n > LARGEST_BLOCK_SIZE ==> len + HEADER == RoundUp(len, PAGE_SIZE) == NumPages(n) * PAGE_SIZE)
  }

  /** In numbers: a block for up to 2048 bytes is of 16 bytes or of less than twice the request; a
      larger one fills whole pages, the fewest that leave at least one byte to spare. */
  predicate SizedFor(n: nat, len: nat) {
    && n <= len
    && (n <= 2048 ==> len == 16 || len < 2 * n)
    && (n > 2048 ==> (len + 16) % 4096 == 0 && n < len <= n + 4096)
  }

  lemma GrantsInNumbers(n: nat)
    ensures forall len: nat :: Grants(n, len) ==> SizedFor(n, len)
  {
    hide Size, BlockType;
    ClassInNumbers(n);
  }

  /** malloc adds exactly one block, at an address where no block was, and large enough;
      every other block keeps its bytes. */
  lemma MallocBlocks(a: Heap, n: nat)
    requires Good(a) && Legal(a, Op.Malloc(n))
    ensures var (a', r) := DoMalloc(a, n);
      Added(a, a', r) && Grants(n, |Blocks(a')[r]|) && SizedFor(n, |Blocks(a')[r]|)
  {
    GrantsInNumbers(n);
    if n > LARGEST_BLOCK_SIZE {
      BigMallocBlocks(a, NumPages(n));
      BigGrants(n, |Blocks(MallocBig(a, NumPages(n)))[LargeAddr(a.largeHigh)]|);
    } else {
      BlockTypeIsLeast(n);
      PopBlocks(a, BlockType(n));
      StepGood(a, Op.Malloc(n));
      var (a', r) := Pop(a, BlockType(n));
      assert PlacedObj(a'.small[r / PAGE_SIZE]);
    }
  }

  /** A request goes to the large objects only when no class holds it. */
  lemma MallocSplits(a: Heap, n: nat)
    requires Good(a) && Legal(a, Op.Malloc(n))
    ensures DoMalloc(a, n).1 < 0xFF_FF00_0000 <==> exists t: nat :: t < 8 && n <= Size(t)
    ensures DoMalloc(a, n).1 < 0xFF_FF00_0000 <==> n <= 2048
  {
    ClassInNumbers(n);
    if n <= LARGEST_BLOCK_SIZE {
      var t := BlockType(n);
      PopBlocks(a, t);
      PopWF(a, t);
      var (a', r) := Pop(a, t);
      assert SmallOk(a', r / PAGE_SIZE);
    }
  }

  /** malloc returns addresses that are multiples of 16. */
  lemma MallocAligned(a: Heap, n: nat)
    requires Good(a) && Legal(a, Op.Malloc(n))
    ensures DoMalloc(a, n).1 % 16 == 0
  {
    if n > LARGEST_BLOCK_SIZE {
      Aligned(a.largeHigh, HEADER);
    } else {
      BlockTypeIsLeast(n);
      var t := BlockType(n);
      if a.stacks[t] == [] {
        OffsetBounds(t, |a.page[t]|);
        Aligned(a.high, Offset(t, |a.page[t]|));
      } else {
        assert StackOk(a, t) && FreeEntry(a, t, a.stacks[t][0]);
        SizeAndAlignment(a, a.stacks[t][0]);
      }
    }
  }

  lemma SizeAndAlignment(a: Heap, v: int)
    requires Shape(a) && Placed(a) && v in a.small
    ensures |a.small[v].data| == Size(a.small[v].cls) && SmallAddr(a, v) % 16 == 0
  {
    var o := a.small[v];
    assert PlacedObj(o);
    OffsetBounds(o.cls, o.idx);
    Aligned(v, o.off);
  }

  lemma Aligned(v: int, off: nat)
    requires off % 16 == 0
    ensures (v * PAGE_SIZE + off) % 16 == 0
  {
  }

  /** The block a successful malloc returns, and no other change. */
  ghost predicate Added(a: Heap, a': Heap, r: int) {
    r > 0 && r !in Blocks(a) && r in Blocks(a') && Blocks(a') == Blocks(a)[r := Blocks(a')[r]]
  }

  lemma BigMallocBlocks(a: Heap, np: nat)
    requires WF(a) && np >= 1 && a.largeHigh + np <= MAX_PAGE
    ensures var a', r := MallocBig(a, np), LargeAddr(a.largeHigh);
      Added(a, a', r)
      && Blocks(a')[r] == Zeros(np * PAGE_SIZE - HEADER) && |Blocks(a')[r]| == np * PAGE_SIZE - HEADER
  {
    MallocBigWF(a, np);
    var a', r := MallocBig(a, np), LargeAddr(a.largeHigh);
    var p := a.largeHigh;
    assert r / PAGE_SIZE == p;
    NewPage(a, r);
    assert LargeStart(a', r);
    InStarts(a', r);
    OneBlock(a, a', r);
  }

  lemma NewPage(a: Heap, r: int)
    requires WF(a)
    requires r / PAGE_SIZE == a.largeHigh || (r / PAGE_SIZE == a.high < LARGE_PAGE)
    ensures r / PAGE_SIZE !in a.small && r / PAGE_SIZE !in a.large && r / PAGE_SIZE !in a.lpage
    ensures forall q :: q in Blocks(a) ==> q / PAGE_SIZE != r / PAGE_SIZE
  {
    var g := r / PAGE_SIZE;
    RangesApart(a, g);
    forall q | q in Blocks(a) ensures q / PAGE_SIZE != g { InStarts(a, q); }
  }

  lemma PopBlocks(a: Heap, t: nat)
    requires WF(a) && t < NUM_BLOCK_TYPES && PopFits(a, t)
    ensures var (a', r) := Pop(a, t);
      Added(a, a', r)
      && r / PAGE_SIZE in a'.small && a'.small[r / PAGE_SIZE].cls == t && SmallStart(a', r)
      && Blocks(a')[r] == a'.small[r / PAGE_SIZE].data
  {
    PopWF(a, t);
    var (a', r) := Pop(a, t);
    var v := r / PAGE_SIZE;
    if a.stacks[t] == [] {
      OffsetBounds(t, |a.page[t]|);
      assert v == a.high;
      NewPage(a, r);
    } else {
      assert v == a.stacks[t][0];
      FreePage(a, v);
    }
    StartIsBlock(a', r);
    OneBlock(a, a', r);
  }

  lemma StartIsBlock(a: Heap, r: int)
    requires WF(a) && SmallStart(a, r)
    ensures r in Blocks(a) && Blocks(a)[r] == a.small[r / PAGE_SIZE].data && r > 0
  {
    InStarts(a, r);
    RangesApart(a, r / PAGE_SIZE);
  }

  lemma FreePage(a: Heap, v: int)
    requires WF(a) && v in a.small && !a.small[v].live
    ensures v !in a.large && forall q :: q in Blocks(a) ==> q / PAGE_SIZE != v
  {
    RangesApart(a, v);
    forall q | q in Blocks(a) ensures q / PAGE_SIZE != v { InStarts(a, q); }
  }

  lemma BigGrants(n: nat, len: nat)
    requires n > LARGEST_BLOCK_SIZE && len == NumPages(n) * PAGE_SIZE - HEADER
    ensures Grants(n, len)
  {
    DivModUnique(len, PAGE_SIZE, NumPages(n) - 1, PAGE_SIZE - HEADER);
  }

  /** If s was the only block on the pages that changed and is gone, the rest is as before. */
  lemma BlockGone(a: Heap, a': Heap, s: int, w: int)
    requires WF(a) && WF(a') && s in Blocks(a)
    requires forall g :: g != s / PAGE_SIZE && g != w ==> SamePage(a, a', g)
    requires forall q :: q in Blocks(a) ==> q / PAGE_SIZE != w || q == s
    requires forall q :: q in Blocks(a') ==> q / PAGE_SIZE != w && q / PAGE_SIZE != s / PAGE_SIZE
    ensures Blocks(a') == Blocks(a) - {s}
  {
    forall q ensures q in Blocks(a') <==> q in Blocks(a) && q != s
             ensures q in Blocks(a') ==> Blocks(a')[q] == Blocks(a)[q]
    {
      if q / PAGE_SIZE == s / PAGE_SIZE {
        if q != s { OnePerPage(a, q, s); }
      } else if q / PAGE_SIZE != w {
        SameBlock(a, a', q);
      }
    }
  }

  lemma FreeSmallBlocks(a: Heap, v: int)
    requires WF(a) && v in a.small && a.small[v].live && a.high < LARGE_PAGE
    requires SmallOk(a, v) && StackOk(a, a.small[v].cls)
    requires var s := a.stacks[a.small[v].cls]; s != [] ==> s[0] in a.small && s[0] >= 0
    ensures SmallAddr(a, v) in Blocks(a)
    ensures Blocks(FreeSmall(a, v)) == Blocks(a) - {SmallAddr(a, v)}
  {
    hide Stacks, StackOk, Larges;
    FreeSmallWF(a, v);
    var a' := FreeSmall(a, v);
    var s := SmallAddr(a, v);
    assert s / PAGE_SIZE == v;
    assert SmallStart(a, s);
    InStarts(a, s);
    NewPage(a, a.high * PAGE_SIZE);
    FreePage(a', a.high);
    RangesApart(a, v);
    forall q | q in Blocks(a') ensures q / PAGE_SIZE != v { InStarts(a', q); }
    BlockGone(a, a', s, a.high);
  }

  lemma FreeBigBlocks(a: Heap, p: int)
    requires WF(a) && p in a.large
    ensures LargeAddr(p) in Blocks(a)
    ensures Blocks(FreeBig(a, p)) == Blocks(a) - {LargeAddr(p)}
  {
    FreeBigWF(a, p);
    var a' := FreeBig(a, p);
    var s := LargeAddr(p);
    assert LargeOk(a, p) && p in a.lpage;
    assert s / PAGE_SIZE == p;
    assert LargeStart(a, s);
    InStarts(a, s);
    RangesApart(a, p);
    forall q | q in Blocks(a') ensures q / PAGE_SIZE != p { InStarts(a', q); }
    BlockGone(a, a', s, p);
  }

  /** free removes exactly the block the pointer lies in. */
  lemma FreeBlocks(a: Heap, x: int)
    requires WF(a) && Legal(a, Op.Free(x)) && x != 0
    ensures StartOf(a, x) in Blocks(a)
    ensures Blocks(DoFree(a, x)) == Blocks(a) - {StartOf(a, x)}
  {
    if InSmall(a, x) {
      FreeSmallReady(a, x / PAGE_SIZE);
      FreeSmallBlocks(a, x / PAGE_SIZE);
    } else {
      FreeBigBlocks(a, a.lpage[x / PAGE_SIZE]);
    }
  }

  /** A write changes one byte of one block. */
  lemma WriteBlocks(a: Heap, x: int, b: byte)
    requires WF(a) && LiveByte(a, x)
    ensures var s := StartOf(a, x);
      s in Blocks(a) && 0 <= x - s < |Blocks(a)[s]|
      && Blocks(DoWrite(a, x, b)) == Blocks(a)[s := Poke(Blocks(a)[s], x - s, b)]
  {
    if InSmall(a, x) { WriteSmallBlocks(a, x, b); } else { WriteLargeBlocks(a, x, b); }
  }

  lemma WriteSmallBlocks(a: Heap, x: int, b: byte)
    requires WF(a) && InSmall(a, x)
    ensures var s := StartOf(a, x);
      s in Blocks(a) && 0 <= x - s < |Blocks(a)[s]|
      && Blocks(DoWrite(a, x, b)) == Blocks(a)[s := Poke(Blocks(a)[s], x - s, b)]
  {
    hide WF, Blocks, Poke, WriteSmall;
    var v := x / PAGE_SIZE;
    PokeBlock(a, v, x - SmallAddr(a, v), b);
  }

  lemma PokeBlock(a: Heap, v: int, i: nat, b: byte)
    requires WF(a) && v in a.small && a.small[v].live && i < |a.small[v].data|
    ensures var s := SmallAddr(a, v);
      s in Blocks(a) && i < |Blocks(a)[s]| && Blocks(WriteSmall(a, v, i, b)) == Blocks(a)[s := Poke(Blocks(a)[s], i, b)]
  {
    assert SmallOk(a, v);
    WriteSmallWF(a, v, i, b);
    var a', s := WriteSmall(a, v, i, b), SmallAddr(a, v);
    assert s / PAGE_SIZE == v;
    assert SmallStart(a, s) && SmallStart(a', s);
    InStarts(a, s);
    InStarts(a', s);
    OneBlock(a, a', s);
  }

  lemma WriteLargeBlocks(a: Heap, x: int, b: byte)
    requires WF(a) && LiveByte(a, x) && !InSmall(a, x)
    ensures var s := StartOf(a, x);
      s in Blocks(a) && 0 <= x - s < |Blocks(a)[s]|
      && Blocks(DoWrite(a, x, b)) == Blocks(a)[s := Poke(Blocks(a)[s], x - s, b)]
  {
    var p := a.lpage[x / PAGE_SIZE];
    var a', s := DoWrite(a, x, b), LargeAddr(p);
    WriteLargeWF(a, p, x - s, b);
    assert s / PAGE_SIZE == p;
    assert LargeStart(a, s) && LargeStart(a', s);
    InStarts(a, s);
    InStarts(a', s);
    OneBlock(a, a', s);
  }
}
