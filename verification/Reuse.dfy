/** What malloc gives out: new zero bytes, or the object of the class that was freed last, with the
    link of the free list in its first word. */
module Reuse {
  import opened Memory
  import opened SizeClass
  import opened Heap
  import opened Runs
  import opened Safety
  import opened Layout
  import opened Nuaf

  /** Some object of the class of a request has been freed and not given out again. */
  ghost predicate Recycles(a: Heap, n: nat)
    requires WF(a)
  {
    n <= 2048 && (ClassInNumbers(n); a.stacks[BlockType(n)] != [])
  }

  /** The freed object that a request would get, or NULL. */
  ghost function NextFree(a: Heap, n: nat): (x: nat)
    requires WF(a)
  {
    if Recycles(a, n) then RecycledAddr(a, n); DoMalloc(a, n).1 else 0
  }

  lemma RecycledAddr(a: Heap, n: nat)
    requires WF(a) && Recycles(a, n)
    ensures n <= 2048 && BlockType(n) < NUM_BLOCK_TYPES && DoMalloc(a, n).1 >= 0
    ensures var s := a.stacks[BlockType(n)];
      s != [] && s[0] in a.small && s[0] >= 0 && DoMalloc(a, n).1 == SmallAddr(a, s[0])
  {
    ClassInNumbers(n);
    assert StackOk(a, BlockType(n)) && FreeEntry(a, BlockType(n), a.stacks[BlockType(n)][0]);
  }

  /** A large block, and a small one when no object of its class is free, is new: it lies on the
      next page of its range and all its bytes are zero. */
  lemma NewIsZero(a: Heap, n: nat)
    requires Good(a) && Legal(a, Op.Malloc(n)) && !Recycles(a, n)
    ensures var (a', r) := DoMalloc(a, n);
      && r in Blocks(a') && (forall i :: 0 <= i < |Blocks(a')[r]| ==> Blocks(a')[r][i] == 0)
      && r / 4096 == if n > 2048 then a.largeHigh else a.high
  {
    hide WF, Placed, Blocks;
    ClassInNumbers(n);
    if n > LARGEST_BLOCK_SIZE {
      BigMallocBlocks(a, NumPages(n));
      PageOffset(a.largeHigh, HEADER);
    } else {
      NewSmall(a, BlockType(n));
    }
  }

  lemma NewSmall(a: Heap, t: nat)
    requires WF(a) && t < NUM_BLOCK_TYPES && PopFits(a, t) && a.stacks[t] == []
    ensures var (a', r) := Pop(a, t);
      r in Blocks(a') && r / PAGE_SIZE == a.high && Blocks(a')[r] == Zeros(|Blocks(a')[r]|)
  {
    PopBlocks(a, t);
    OffsetBounds(t, |a.page[t]|);
    PageOffset(a.high, Offset(t, |a.page[t]|));
    hide Blocks, Stacks, Bijection, Larges;
  }

  /** The bytes d' are d with the word e in front. */
  predicate Headed(d: seq<byte>, d': seq<byte>, e: nat) {
    |d'| == |d| >= 8 && d'[..8] == Encode(e, 8) && d'[8..] == d[8..]
  }

  /** Last freed, first given out: right after the free of a small object, a request of its class
      gets it back, on the page that was high_vaddr and at the same place in it, with its bytes as
      they were except the first eight. Those hold the address the class would have given out
      before the free, or NULL if it had none free. */
  lemma LastFreedFirst(a: Heap, x: int, b: Heap, n: nat)
    requires Good(a) && Legal(a, Op.Free(x)) && InSmall(a, x) && b == DoFree(a, x) && WF(b)
    requires var q := StartOf(a, x);
      q in Blocks(a) && n <= |Blocks(a)[q]| && (|Blocks(a)[q]| == 16 || |Blocks(a)[q]| < 2 * n)
    ensures Legal(b, Op.Malloc(n))
    ensures var q, (c, r) := StartOf(a, x), DoMalloc(b, n);
      && r == a.high * 4096 + q % 4096 && r in Blocks(c)
      && Blocks(c) == (Blocks(a) - {q})[r := Blocks(c)[r]]
      && Headed(Blocks(a)[q], Blocks(c)[r], NextFree(a, n))
  {
    hide WF, Placed, Blocks, Headed, InSmall, InLarge, StartOf, DoFree, FreeSmall, DoMalloc, StackReady, WalkClear,
      SmallOk;
    SmallObject(a, x);
    var v := x / PAGE_SIZE;
    ClassOf(n, a.small[v].cls);
    FreeBlocks(a, x);
    FreedIsTop(a, v, b, n);
    PopTopBlocks(b, n);
  }

  lemma SmallObject(a: Heap, x: int)
    requires Good(a) && InSmall(a, x)
    ensures var v, q := x / PAGE_SIZE, StartOf(a, x);
      && v in a.small && a.small[v].live && a.small[v].cls < NUM_BLOCK_TYPES
      && x > 0 && SmallOk(a, v) && StackReady(a, v) && DoFree(a, x) == FreeSmall(a, v)
      && q in Blocks(a) && Blocks(a)[q] == a.small[v].data && q % PAGE_SIZE == a.small[v].off
      && |a.small[v].data| == Size(a.small[v].cls)
  {
    hide WF, Size, Offset, StackReady;
    ReadBlock(a, x);
    FreeIs(a, x);
    SmallPlace(a, x / PAGE_SIZE);
    PageOffset(x / PAGE_SIZE, a.small[x / PAGE_SIZE].off);
  }

  lemma SmallPlace(a: Heap, v: int)
    requires Good(a) && v in a.small
    ensures SmallOk(a, v) && PlacedObj(a.small[v])
  {
  }

  lemma PopTopBlocks(b: Heap, n: nat)
    requires WF(b) && Recycles(b, n)
    ensures Legal(b, Op.Malloc(n))
    ensures var (c, r) := DoMalloc(b, n);
      Added(b, c, r) && r / PAGE_SIZE in c.small && Blocks(c)[r] == c.small[r / PAGE_SIZE].data
  {
    hide WF, Blocks;
    RecycledAddr(b, n);
    PopBlocks(b, BlockType(n));
  }

  lemma FreedIsTop(a: Heap, v: int, b: Heap, n: nat)
    requires WF(a) && WF(b) && v in a.small && a.small[v].live
    requires SmallOk(a, v) && StackReady(a, v) && b == FreeSmall(a, v)
    requires n <= LARGEST_BLOCK_SIZE && BlockType(n) == a.small[v].cls
    ensures b.stacks[a.small[v].cls] != []
    ensures var (c, r) := DoMalloc(b, n);
      && r == a.high * PAGE_SIZE + a.small[v].off && a.high in c.small && r / PAGE_SIZE == a.high
      && Headed(a.small[v].data, c.small[a.high].data, NextFree(a, n))
  {
    hide Bijection, Stacks, Larges;
    if Recycles(a, n) { RecycledAddr(a, n); }
    PageOffset(a.high, a.small[v].off);
  }
}
