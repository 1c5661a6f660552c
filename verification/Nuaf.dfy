/** allocator.c and freelist.c: the global variables as fields, the functions as methods. */
module Nuaf {
  import opened Arith
  import opened Memory
  import opened SizeClass
  import opened Heap
  import opened Runs
  import opened Safety
  import opened RunSafety
  import opened Layout
  import opened Machine

  /** What xxmalloc_usable_size returns for a pointer into a live object: the object's size,
      unless the walk through a large object is led astray by the client's own bytes. */
  ghost function Usable(a: Heap, x: int): int
    requires WF(a) && LiveByte(a, x)
  {
    if InSmall(a, x) then |a.small[x / PAGE_SIZE].data|
    else
      LiveLarge(a, x);
      var p := a.lpage[x / PAGE_SIZE];
      var o := a.large[p];
      var k := WalkStop(o, x / PAGE_SIZE - p);
      if k == 0 then |o.data|
      else (Decode(o.data[k * PAGE_SIZE - 8..k * PAGE_SIZE]) * PAGE_SIZE - HEADER) % WORD
  }

  lemma LiveLarge(a: Heap, x: int)
    requires WF(a) && LiveByte(a, x) && !InSmall(a, x)
    ensures var p := a.lpage[x / PAGE_SIZE];
      LargeOk(a, p) && p <= x / PAGE_SIZE < p + a.large[p].numPages
  {
    assert LargeOk(a, a.lpage[x / PAGE_SIZE]);
  }

  /** The page at which both walks stop. */
  ghost function StopPage(a: Heap, x: int): int
    requires WF(a) && LiveByte(a, x) && !InSmall(a, x)
  {
    LiveLarge(a, x);
    var p := a.lpage[x / PAGE_SIZE];
    p + WalkStop(a.large[p], x / PAGE_SIZE - p)
  }

  class Allocator {
    var mem: Mem
    var backing: map<int, int>
    const flsts: array<FreeList>
    var highVaddr: int
    var largeObjNextPage: int
    var numMappings: int
    ghost var heap: Heap

    ghost function Snapshot(): Mach
      reads this, flsts
    {
      Mach(mem, backing, flsts[..], highVaddr, largeObjNextPage)
    }

    ghost predicate Valid()
      reads this, flsts
      ensures Valid() ==> Good(heap)
    {
      Rep(Snapshot(), heap, NoHole, map[]) && numMappings == |heap.small| + |heap.large|
    }

    /** The state init_mem leaves, with freelist_init's loop over the eight lists. */
    constructor ()
      ensures Valid() && heap == EMPTY && fresh(flsts)
    {
      mem := map[];
      backing := map[];
      flsts := new FreeList[NUM_BLOCK_TYPES](_ => FreeList(0, 0));
      highVaddr := MMAP_MIN_ADDR;
      largeObjNextPage := LARGE_OBJ_VADDR_START;
      numMappings := 0;
      heap := EMPTY;
      new;
      for i := 0 to NUM_BLOCK_TYPES
        invariant forall t :: 0 <= t < i ==> flsts[t] == FreeList(0, t * PAGE_SIZE + BYTE_ALIGNMENT)
        invariant mem == map[] && backing == map[] && heap == EMPTY && numMappings == 0
        invariant highVaddr == MMAP_MIN_ADDR && largeObjNextPage == LARGE_OBJ_VADDR_START
      {
        flsts[i] := FreeList(0, i * PAGE_SIZE + BYTE_ALIGNMENT);
      }
      StartRep(Snapshot());
    }

    /** The class comes from the request; an empty list gives a new canonical object on a new
        page, any other list its top entry. */
    method FreelistPop(size: nat) returns (p: int)
      requires Valid() && size <= LARGEST_BLOCK_SIZE
      requires BlockType(size) < NUM_BLOCK_TYPES && PopFits(heap, BlockType(size))
      modifies this, flsts
      ensures Valid() && heap == Pop(old(heap), BlockType(size)).0
      ensures p == Pop(old(heap), BlockType(size)).1
    {
      hide RepMid, Mapped, Load, Store, Bump, FreshMapped, StoreHeader, Stacks, Bijection, Larges, Placed;
      var t := BlockType(size);
      ghost var m, a := Snapshot(), heap;
      ListCount(m, a, NoHole, map[]);
      TopIsNull(a, t);
      if flsts[t].top == 0 {
        RepFreshPop(m, a, t);
        p := PopFresh(t);
        heap := Pop(a, t).0;
      } else {
        RepListPop(m, a, map[], t);
        p := flsts[t].top;
        flsts[t] := FreeList(Load(mem, p, 8), flsts[t].highCanonical);
        heap := Pop(a, t).0;
        assert Snapshot() == m.(lists := m.lists[t := m.lists[t].(top := Load(m.mem, m.lists[t].top, 8))]);
      }
      assert p == Pop(a, t).1;
    }

    /** The branch of freelist_pop for an empty list, on the bare machine. */
    method PopFresh(t: nat) returns (p: int)
      requires t < NUM_BLOCK_TYPES == flsts.Length && highVaddr % PAGE_SIZE == 0
      requires Mapped(FreshMapped(Snapshot(), t).mem, highVaddr, 4)
      modifies this, flsts
      ensures Snapshot() == FreshDone(old(Snapshot()), t)
      ensures p == old(highVaddr) + old(flsts[t].highCanonical) % PAGE_SIZE
      ensures numMappings == old(numMappings) + 1 && heap == old(heap)
    {
      var beginning := highVaddr;
      mem := Mmap(mem, highVaddr / PAGE_SIZE, 1);
      backing := backing[highVaddr / PAGE_SIZE := RoundDown(flsts[t].highCanonical, PAGE_SIZE)];
      numMappings := numMappings + 1;
      if Load(mem, beginning, 4) != t {
        mem := Store(mem, beginning, Encode(t, 4));
      }
      highVaddr := highVaddr + PAGE_SIZE;
      p := beginning + flsts[t].highCanonical % PAGE_SIZE;
      BumpCanonical(t);
    }

    /** The bump pointer of class t moves to the next canonical object. */
    method BumpCanonical(t: nat)
      requires t < flsts.Length
      modifies flsts
      ensures flsts[..] == old(flsts[..])[t := FreeList(old(flsts[t].top), Bump(t, old(flsts[t].highCanonical)))]
    {
      var next := flsts[t].highCanonical + Pow2(MAGIC_NUMBER + t);
      var bof := next % PAGE_SIZE;
      if bof == 0 || bof >= PAGE_SIZE - 2 * Pow2(MAGIC_NUMBER + t) {
        next := RoundUp(next, PAGE_SIZE) + PAGE_SIZE * (NUM_BLOCK_TYPES - 1) + BYTE_ALIGNMENT;
      }
      flsts[t] := FreeList(flsts[t].top, next);
    }

    /** The object goes on top of the list its page header names, linked to the old top. */
    method FreelistPush(obj: int)
      requires flsts.Length == NUM_BLOCK_TYPES
      requires Mapped(mem, RoundDownPage(obj), 4) && Load(mem, RoundDownPage(obj), 4) < NUM_BLOCK_TYPES
      requires Mapped(mem, obj, 8) && flsts[Load(mem, RoundDownPage(obj), 4)].top >= 0
      modifies this`mem, flsts
      ensures var t := Load(old(mem), RoundDownPage(obj), 4);
        && mem == Store(old(mem), obj, Encode(old(flsts[t].top), 8))
        && flsts[..] == old(flsts[..])[t := old(flsts[t]).(top := obj)]
    {
      var t := Load(mem, RoundDownPage(obj), 4);
      mem := Store(mem, obj, Encode(flsts[t].top, 8));
      flsts[t] := FreeList(obj, flsts[t].highCanonical);
    }

    method XxMallocBig(size: nat) returns (p: int)
      requires Valid() && LARGEST_BLOCK_SIZE < size < SIGN_BIT && Fits(heap, Op.Malloc(size))
      modifies this
      ensures Valid() && heap == MallocBig(old(heap), NumPages(size)) && p == LargeAddr(old(heap).largeHigh)
      ensures p == old(largeObjNextPage) + 16 && p + size < largeObjNextPage <= p + size + 4096
      ensures largeObjNextPage % 4096 == 0
    {
      hide RepMid, WF, Mapped, Store, Encode, Mmap;
      ghost var m, a := Snapshot(), heap;
      NewLarge(m, a);
      var total := (size + HEADER) % WORD;
      var numPages := total / PAGE_SIZE + 1;
      NoWrap(size + HEADER);
      RepMallocBig(m, a, numPages);
      var shadow := largeObjNextPage;
      mem := Mmap(mem, shadow / PAGE_SIZE, numPages);
      numMappings := numMappings + 1;
      largeObjNextPage := largeObjNextPage + PAGE_SIZE * numPages;
      mem := Store(mem, shadow, Encode(LARGE_OBJ_START_MAGIC, 8));
      mem := Store(mem, shadow + 8, Encode(numPages, 8));
      p := shadow + 16;
      heap := MallocBig(a, numPages);
    }

    method XxMalloc(size: nat) returns (p: int)
      requires Valid() && Legal(heap, Op.Malloc(size))
      modifies this, flsts
      ensures Valid() && heap == DoMalloc(old(heap), size).0 && p == DoMalloc(old(heap), size).1
      ensures p < 0xFF_FF00_0000 <==> size <= 2048
    {
      MallocSplits(heap, size);
      if size > LARGEST_BLOCK_SIZE {
        p := XxMallocBig(size);
      } else {
        BlockTypeIsLeast(size);
        p := FreelistPop(size);
      }
    }

    /** The loop of xxmalloc_usable_size and of get_obj_start: down page by page until a page
        begins with the magic word. */
    method WalkDown(ptr: int) returns (cur: int)
      requires Valid() && LiveByte(heap, ptr) && !InSmall(heap, ptr)
      ensures cur / PAGE_SIZE == StopPage(heap, ptr) && cur % PAGE_SIZE == ptr % PAGE_SIZE
      ensures Mapped(mem, RoundDownPage(cur) + 8, 8)
    {
      hide RepMid, WF, Placed, Mapped, Load, MagicAt;
      ghost var m := Snapshot();
      ghost var k := ptr / PAGE_SIZE;
      ghost var p := heap.lpage[k];
      ghost var o := heap.large[p];
      LiveLarge(heap, ptr);
      WalkRead(m, heap, k);
      PageParts(ptr);
      cur := ptr;
      while Load(mem, RoundDownPage(cur), 8) != LARGE_OBJ_START_MAGIC
        invariant p <= k <= ptr / PAGE_SIZE && k == cur / PAGE_SIZE
        invariant cur % PAGE_SIZE == ptr % PAGE_SIZE && RoundDownPage(cur) == k * PAGE_SIZE
        invariant Mapped(mem, k * PAGE_SIZE, 8)
        invariant Load(mem, k * PAGE_SIZE, 8) == LARGE_OBJ_START_MAGIC <==> k == p || MagicAt(o, k - p)
        invariant WalkStop(o, k - p) == WalkStop(o, ptr / PAGE_SIZE - p)
        decreases k
      {
        PageParts(cur);
        cur := cur - PAGE_SIZE;
        k := k - 1;
        PageParts(cur);
        assert k in heap.lpage;
        WalkRead(m, heap, k);
      }
      CountWord(m, heap, k);
    }

    /** The branch of xxmalloc_usable_size for large objects. */
    method UsableLarge(ptr: int) returns (size: int)
      requires Valid() && LiveByte(heap, ptr) && !InSmall(heap, ptr)
      ensures size == Usable(heap, ptr)
    {
      hide RepMid, WF, Placed, Load, Mapped, RoundDownPage, MagicAt;
      var cur := WalkDown(ptr);
      LiveLarge(heap, ptr);
      CountWord(Snapshot(), heap, cur / PAGE_SIZE);
      LargeFits(heap, heap.lpage[ptr / PAGE_SIZE]);
      PageParts(cur);
      size := (Load(mem, RoundDownPage(cur) + 8, 8) * PAGE_SIZE - 16) % WORD;
    }

    method XxMallocUsableSize(ptr: int) returns (size: int)
      requires Valid() && (ptr == 0 || LiveByte(heap, ptr))
      ensures ptr == 0 ==> size == 0
      ensures ptr != 0 ==> size == Usable(heap, ptr)
    {
      hide RepMid, WF, Placed;
      if ptr == 0 {
        return 0;
      }
      ghost var m := Snapshot();
      AboveLarge(heap, ptr);
      if ptr >= LARGE_OBJ_VADDR_START {
        size := UsableLarge(ptr);
      } else {
        ClassRead(m, heap, ptr / PAGE_SIZE);
        size := Pow2(Load(mem, RoundDownPage(ptr), 4) + MAGIC_NUMBER);
      }
    }

    /** From any pointer into an object and its size to the object's start: a small object's
        first byte, a large object's first page. */
    method GetObjStart(ptr: int, size: nat) returns (start: int)
      requires Valid() && LiveByte(heap, ptr)
      requires InSmall(heap, ptr) ==> size == Usable(heap, ptr)
      ensures InSmall(heap, ptr) ==> start == StartOf(heap, ptr)
      ensures !InSmall(heap, ptr) ==> start == StopPage(heap, ptr) * PAGE_SIZE
    {
      ghost var m := Snapshot();
      AboveLarge(heap, ptr);
      if ptr >= LARGE_OBJ_VADDR_START {
        var cur := WalkDown(ptr);
        start := RoundDownPage(cur);
      } else {
        ClassRead(m, heap, ptr / PAGE_SIZE);
        SmallStartRound(heap, ptr);
        start := RoundDown(ptr - BYTE_ALIGNMENT, size) + BYTE_ALIGNMENT;
      }
    }

    /** The part of xxfree under g_m: the page moves to high_vaddr and the object is pushed. */
    method RetireSmall(start: int)
      requires Valid() && SmallStart(heap, start) && InSmall(heap, start) && heap.high < LARGE_PAGE
      modifies this, flsts
      ensures Valid() && heap == DoFree(old(heap), start)
    {
      hide RepMid, WF, Mapped, Load, Store, Encode, Mremap, RoundDownPage, SmallOk, StackOk, FreeSmall, DoFree,
        StackReady, Placed;
      ghost var m, a, v := Snapshot(), heap, start / PAGE_SIZE;
      ghost var t := a.small[v].cls;
      RepFreeSmall(m, a, v);
      RetireAddresses(a, start);
      var newObj := MovePage(start);
      FreelistPush(newObj);
      assert Load(Mremap(m.mem, v, a.high), RoundDownPage(newObj), 4) == t;
      assert Snapshot() == m.(mem := Store(Mremap(m.mem, v, a.high), newObj, Encode(m.lists[t].top, 8)),
                              backing := (m.backing - {v})[a.high := m.backing[v]],
                              lists := m.lists[t := m.lists[t].(top := newObj)],
                              highVaddr := m.highVaddr + PAGE_SIZE);
      FreeIs(a, start);
      heap := DoFree(a, start);
    }

    /** mremap of the page of start to high_vaddr, which moves on. */
    method MovePage(start: int) returns (newObj: int)
      requires RoundDownPage(start) / PAGE_SIZE in mem && RoundDownPage(start) / PAGE_SIZE in backing
      modifies this`mem, this`backing, this`highVaddr
      ensures var page, newVpage := RoundDownPage(start) / PAGE_SIZE, old(highVaddr) / PAGE_SIZE;
        && mem == Mremap(old(mem), page, newVpage)
        && backing == (old(backing) - {page})[newVpage := old(backing)[page]]
      ensures highVaddr == old(highVaddr) + PAGE_SIZE && newObj == old(highVaddr) + start % PAGE_SIZE
    {
      var page := RoundDownPage(start) / PAGE_SIZE;
      var newVpage := highVaddr / PAGE_SIZE;
      mem := Mremap(mem, page, newVpage);
      backing := (backing - {page})[newVpage := backing[page]];
      newObj := highVaddr + start % PAGE_SIZE;
      highVaddr := highVaddr + PAGE_SIZE;
    }

    /** The part of xxfree for a large object: all of its pages are unmapped. */
    method UnmapLarge(start: int, objSize: nat)
      requires Valid() && start / PAGE_SIZE in heap.large && start % PAGE_SIZE == 0
      requires objSize == |heap.large[start / PAGE_SIZE].data|
      modifies this
      ensures Valid() && heap == FreeBig(old(heap), start / PAGE_SIZE)
    {
      hide RepMid, WF, Munmap, RoundDownPage, RoundUp;
      ghost var m, a, p := Snapshot(), heap, start / PAGE_SIZE;
      RepUnmap(m, a, NoHole, map[], p);
      UnmapAddresses(a, start);
      var page, n := RoundDownPage(start) / PAGE_SIZE, RoundUp(objSize, PAGE_SIZE) / PAGE_SIZE;
      mem := Munmap(mem, page, n);
      numMappings := numMappings - 1;
      heap := FreeBig(a, p);
    }

    method XxFree(ptr: int)
      requires Valid() && Legal(heap, Op.Free(ptr))
      modifies this, flsts
      ensures Valid() && heap == DoFree(old(heap), ptr)
    {
      hide RepMid, WF, Placed;
      if ptr == 0 {
        return;
      }
      AboveLarge(heap, ptr);
      var objSize := XxMallocUsableSize(ptr);
      var start := GetObjStart(ptr, objSize);
      StartRange(heap, ptr);
      if start >= LARGE_OBJ_VADDR_START {
        UnmapLarge(start, objSize);
      } else {
        FreeIs(heap, ptr);
        FreeIs(heap, start);
        RetireSmall(start);
      }
    }

    /** The client stores a byte through a pointer into one of its live objects. */
    method ClientWrite(x: int, b: byte)
      requires Valid() && LiveByte(heap, x)
      modifies this
      ensures Valid() && heap == DoWrite(old(heap), x, b)
    {
      hide RepMid, WF, Placed;
      ghost var a := heap;
      RepWrite(Snapshot(), a, NoHole, map[], x, b);
      SameSizes(a, x, b);
      mem := Store(mem, x, [b]);
      heap := DoWrite(a, x, b);
    }

    /** The client loads a byte through a pointer into one of its live objects. */
    method ClientRead(x: int) returns (b: byte)
      requires Valid() && LiveByte(heap, x)
      ensures var s := StartOf(heap, x); s in Blocks(heap) && 0 <= x - s < |Blocks(heap)[s]|
      ensures b == Blocks(heap)[StartOf(heap, x)][x - StartOf(heap, x)]
    {
      hide RepMid, Placed;
      RepRead(Snapshot(), heap, NoHole, map[], x);
      ReadBlock(heap, x);
      b := mem[x / PAGE_SIZE][x % PAGE_SIZE];
    }
  }

  /** The page that moves, and the object's address on the new page. */
  lemma RetireAddresses(a: Heap, start: int)
    requires WF(a) && SmallStart(a, start)
    ensures var v, x := start / PAGE_SIZE, a.high * PAGE_SIZE + start % PAGE_SIZE;
      && RoundDownPage(start) / PAGE_SIZE == v && x == a.high * PAGE_SIZE + a.small[v].off
      && RoundDownPage(x) == a.high * PAGE_SIZE && a.high * PAGE_SIZE / PAGE_SIZE == a.high
  {
    var v := start / PAGE_SIZE;
    assert SmallOk(a, v);
    PageParts(start);
    PageOffset(v, a.small[v].off);
    PageOffset(a.high, a.small[v].off);
    PageParts(a.high * PAGE_SIZE + a.small[v].off);
  }

  /** Rounding the usable size up gives back all the pages of the object. */
  lemma UnmapAddresses(a: Heap, start: int)
    requires WF(a) && start / PAGE_SIZE in a.large && start % PAGE_SIZE == 0
    ensures var p := start / PAGE_SIZE;
      RoundDownPage(start) / PAGE_SIZE == p && RoundUp(|a.large[p].data|, PAGE_SIZE) / PAGE_SIZE == a.large[p].numPages
  {
    LargeFits(a, start / PAGE_SIZE);
    WholePages(a.large[start / PAGE_SIZE].numPages);
    PageParts(start);
  }

  lemma ReadBlock(a: Heap, x: int)
    requires WF(a) && LiveByte(a, x)
    ensures StartOf(a, x) in Blocks(a)
    ensures Blocks(a)[StartOf(a, x)] == LiveData(a, x)
  {
    LiveByteInBlock(a, x);
    InStarts(a, StartOf(a, x));
    if InSmall(a, x) { assert SmallOk(a, x / PAGE_SIZE); } else { LiveLarge(a, x); }
  }

  /** free through any pointer into a small object is free of that object. */
  lemma FreeIs(a: Heap, x: int)
    requires WF(a) && InSmall(a, x)
    ensures x > 0 && StackReady(a, x / PAGE_SIZE) && DoFree(a, x) == FreeSmall(a, x / PAGE_SIZE)
    ensures |DoFree(a, x).small| == |a.small| && DoFree(a, x).large == a.large
  {
    FreeAccount(a, x / PAGE_SIZE);
    AboveLarge(a, x);
  }

  lemma SameSizes(a: Heap, x: int, b: byte)
    requires LiveByte(a, x)
    ensures |DoWrite(a, x, b).small| == |a.small| && |DoWrite(a, x, b).large| == |a.large|
  {
    assert DoWrite(a, x, b).small.Keys == a.small.Keys && DoWrite(a, x, b).large.Keys == a.large.Keys;
  }

  lemma WholePages(n: nat)
    requires n >= 1
    ensures RoundUp(n * PAGE_SIZE - HEADER, PAGE_SIZE) / PAGE_SIZE == n
  {
    DivModUnique(n * PAGE_SIZE - HEADER, PAGE_SIZE, n - 1, PAGE_SIZE - HEADER);
  }

  /** The start that get_obj_start finds tells small from large again. */
  lemma StartRange(a: Heap, x: int)
    requires WF(a) && LiveByte(a, x)
    ensures InSmall(a, x) ==> StartOf(a, x) < LARGE_OBJ_VADDR_START && SmallStart(a, StartOf(a, x))
    ensures InSmall(a, x) ==> StartOf(a, x) / PAGE_SIZE == x / PAGE_SIZE && InSmall(a, StartOf(a, x))
    ensures !InSmall(a, x) ==> LARGE_OBJ_VADDR_START <= StopPage(a, x) * PAGE_SIZE
    ensures !InSmall(a, x) ==> StopPage(a, x) * PAGE_SIZE / PAGE_SIZE == StopPage(a, x)
  {
    RangesApart(a, x / PAGE_SIZE);
    if InSmall(a, x) {
      assert SmallOk(a, x / PAGE_SIZE);
      PageOffset(x / PAGE_SIZE, a.small[x / PAGE_SIZE].off);
    } else {
      LiveLarge(a, x);
      PageOffset(StopPage(a, x), 0);
    }
  }

  /** ROUND_DOWN(x, PAGE_SIZE). */
  function RoundDownPage(x: int): int { RoundDown(x, PAGE_SIZE) }

  lemma NewLarge(m: Mach, a: Heap)
    requires Rep(m, a, NoHole, map[])
    ensures m.largeNext == a.largeHigh * PAGE_SIZE && m.largeNext / PAGE_SIZE == a.largeHigh
    ensures a.largeHigh !in a.large
  {
    RangesApart(a, a.largeHigh);
  }

  lemma PageParts(x: int)
    ensures RoundDownPage(x) == x / PAGE_SIZE * PAGE_SIZE
    ensures (x - PAGE_SIZE) / PAGE_SIZE == x / PAGE_SIZE - 1 && (x - PAGE_SIZE) % PAGE_SIZE == x % PAGE_SIZE
  {
  }

  lemma NoWrap(x: nat)
    requires x < WORD
    ensures x % WORD == x
  {
  }

  /** A page count never makes the size computation wrap. */
  lemma LargeFits(a: Heap, p: int)
    requires WF(a) && p in a.large
    ensures LargeOk(a, p) && (a.large[p].numPages * PAGE_SIZE - HEADER) % WORD == |a.large[p].data|
  {
    assert LargeOk(a, p);
    NoWrap(|a.large[p].data|);
  }

  lemma AboveLarge(a: Heap, x: int)
    requires WF(a) && LiveByte(a, x)
    ensures x >= LARGE_OBJ_VADDR_START <==> !InSmall(a, x)
    ensures x > 0
  {
    RangesApart(a, x / PAGE_SIZE);
  }

  /** Rounding down to a multiple of the size, past the header, finds the start of a small object. */
  lemma SmallStartRound(a: Heap, x: int)
    requires WF(a) && InSmall(a, x) && PlacedObj(a.small[x / PAGE_SIZE])
    ensures x - BYTE_ALIGNMENT >= 0 && |a.small[x / PAGE_SIZE].data| > 0
    ensures RoundDown(x - BYTE_ALIGNMENT, |a.small[x / PAGE_SIZE].data|) + BYTE_ALIGNMENT == SmallAddr(a, x / PAGE_SIZE)
  {
    var v := x / PAGE_SIZE;
    var o := a.small[v];
    RangesApart(a, v);
    OffsetBounds(o.cls, o.idx);
    RoundToStart(v, o.off, |o.data|, x - SmallAddr(a, v));
  }

  lemma RoundToStart(v: nat, off: nat, s: nat, i: nat)
    requires s > 0 && i < s && off >= BYTE_ALIGNMENT && (off - BYTE_ALIGNMENT) % s == 0 && PAGE_SIZE % s == 0
    ensures RoundDown(v * PAGE_SIZE + off + i - BYTE_ALIGNMENT, s) == v * PAGE_SIZE + off - BYTE_ALIGNMENT
  {
    var q, r := PAGE_SIZE / s, (off - BYTE_ALIGNMENT) / s;
    assert PAGE_SIZE == q * s && off - BYTE_ALIGNMENT == r * s;
    assert v * (q * s) + r * s == (v * q + r) * s;
    DivModUnique(v * PAGE_SIZE + off + i - BYTE_ALIGNMENT, s, v * q + r, i);
  }

  lemma StartRep(m: Mach)
    requires m.mem == map[] && m.backing == map[] && |m.lists| == NUM_BLOCK_TYPES
    requires forall t :: 0 <= t < NUM_BLOCK_TYPES ==> m.lists[t] == FreeList(0, t * PAGE_SIZE + BYTE_ALIGNMENT)
    requires m.highVaddr == MMAP_MIN_ADDR && m.largeNext == LARGE_OBJ_VADDR_START
    ensures Rep(m, EMPTY, NoHole, map[])
  {
    EmptyWF();
    forall t: nat | t < NUM_BLOCK_TYPES
      ensures CanonicalAddr(t, 0) == t * PAGE_SIZE + BYTE_ALIGNMENT && EMPTY.page[t] == []
    {
      BumpIsNext(t, 0);
    }
  }
}
