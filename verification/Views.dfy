/** What the represented machine looks like from outside: which pages are mapped, which canonical
    object each page shows, and when a walk through a large object can be trusted. */
module Views {
  import opened Arith
  import opened Memory
  import opened SizeClass
  import opened Heap
  import opened Runs
  import opened Safety
  import opened RunSafety
  import opened Layout
  import opened Machine
  import opened Nuaf
  import opened Wrapper

  /** The mapped pages are exactly those of the objects ever issued and of the live large
      objects; a retired page is not mapped, so touching it faults. */
  lemma MappedExactly(m: Mach, a: Heap, g: int)
    requires Rep(m, a, NoHole, map[])
    ensures g in m.mem <==> MappedPage(a, g)
    ensures Retired(a, g) ==> g !in m.mem
  {
  }

  /** Where in the backing file the object on page v lies. */
  function CanonicalStart(m: Mach, a: Heap, v: int): int
    requires v in m.backing && v in a.small
  {
    m.backing[v] + a.small[v].off
  }

  /** Page v shows canonical object idx of class cls, at the in-page offset the file has it. */
  lemma ShowsCanonical(m: Mach, a: Heap, v: int)
    requires Rep(m, a, NoHole, map[]) && v in a.small
    ensures v in m.backing && SmallOk(a, v) && PlacedObj(a.small[v])
    ensures CanonicalStart(m, a, v) == CanonicalAddr(a.small[v].cls, a.small[v].idx)
    ensures CanonicalStart(m, a, v) % PAGE_SIZE == SmallAddr(a, v) % PAGE_SIZE
    ensures CanonicalStart(m, a, v) + |a.small[v].data| <= DATA_SIZE
  {
    hide RepMid, WF, Placed, Pow2;
    PageOf(m, a, v);
    var o := a.small[v];
    OffsetBounds(o.cls, o.idx);
    PageOffset(v, o.off);
    PageOffset(CanonicalPage(o.cls, o.idx), o.off);
    InsideDataFile(o.cls, o.idx);
  }

  lemma PageOf(m: Mach, a: Heap, v: int)
    requires Rep(m, a, NoHole, map[]) && v in a.small
    ensures SmallOk(a, v) && PlacedObj(a.small[v]) && BackedBy(m.backing, v, a.small[v].cls, a.small[v].idx)
    ensures a.small[v].idx < 0x200_0000 * PerPage(a.small[v].cls)
  {
    hide Shows, Tops, Bumps, Stacks, Larges, PerPage, Offset;
    assert SmallOk(a, v) && PlacedObj(a.small[v]);
    assert BackedBy(m.backing, Loc(a, NoHole, v), a.small[v].cls, a.small[v].idx);
  }

  /** The mapped small pages and the canonical objects ever issued are in bijection, and no two
      of the objects share a byte of the file. */
  lemma CanonicalBijection(m: Mach, a: Heap)
    requires Rep(m, a, NoHole, map[])
    ensures forall v :: v in m.backing <==> v in a.small
    ensures forall v, w :: v in a.small && w in a.small && v != w ==>
      CanonicalStart(m, a, v) + |a.small[v].data| <= CanonicalStart(m, a, w)
      || CanonicalStart(m, a, w) + |a.small[w].data| <= CanonicalStart(m, a, v)
    ensures forall t, n :: 0 <= t < NUM_BLOCK_TYPES && 0 <= n < |a.page[t]| ==>
      a.page[t][n] in a.small && CanonicalStart(m, a, a.page[t][n]) == CanonicalAddr(t, n)
  {
    hide RepMid, WF, Placed;
    BackedPages(m, a);
    forall v, w | v in a.small && w in a.small && v != w
      ensures CanonicalStart(m, a, v) + |a.small[v].data| <= CanonicalStart(m, a, w)
           || CanonicalStart(m, a, w) + |a.small[w].data| <= CanonicalStart(m, a, v)
    {
      ShowsCanonical(m, a, v);
      ShowsCanonical(m, a, w);
      CanonicalDisjoint(a.small[v].cls, a.small[v].idx, a.small[w].cls, a.small[w].idx);
    }
    forall t, n | 0 <= t < NUM_BLOCK_TYPES && 0 <= n < |a.page[t]|
      ensures a.page[t][n] in a.small && CanonicalStart(m, a, a.page[t][n]) == CanonicalAddr(t, n)
    {
      IssuedPage(m, a, t, n);
      ShowsCanonical(m, a, a.page[t][n]);
    }
  }

  lemma BackedPages(m: Mach, a: Heap)
    requires Rep(m, a, NoHole, map[])
    ensures |a.page| == NUM_BLOCK_TYPES && forall v :: v in m.backing <==> v in a.small
  {
  }

  lemma IssuedPage(m: Mach, a: Heap, t: nat, n: nat)
    requires Rep(m, a, NoHole, map[]) && t < NUM_BLOCK_TYPES == |a.page| && n < |a.page[t]|
    ensures var v := a.page[t][n]; v in a.small && a.small[v].cls == t && a.small[v].idx == n
  {
  }

  // ----- the free lists in memory

  /** j links followed from x through memory; -1 when a link is not mapped. */
  function Follow(mem: Mem, x: int, j: nat): int {
    if j == 0 then x
    else
      var y := Follow(mem, x, j - 1);
      if Mapped(mem, y, 8) then Load(mem, y, 8) else -1
  }

  /** Entry j of free list t: a mapped, dead object whose page header is t and whose first word
      is the address of the entry below. */
  lemma ChainNode(m: Mach, a: Heap, t: nat, j: nat)
    requires Rep(m, a, NoHole, map[]) && t < NUM_BLOCK_TYPES == |a.stacks| && j < |a.stacks[t]|
    ensures var v := a.stacks[t][j]; FreeEntry(a, t, v) && v >= 0
    ensures j + 1 < |a.stacks[t]| ==> FreeEntry(a, t, a.stacks[t][j + 1]) && a.stacks[t][j + 1] >= 0
    ensures var v, x := a.stacks[t][j], EntryAddr(a, a.stacks[t], j);
      && x > 0 && x / PAGE_SIZE == v
      && Mapped(m.mem, v * PAGE_SIZE, 4) && Load(m.mem, v * PAGE_SIZE, 4) == t
      && Mapped(m.mem, x, 8) && Load(m.mem, x, 8) == EntryAddr(a, a.stacks[t], j + 1)
  {
    hide RepMid, WF, SmallAt, Mapped, Load;
    assert WF(a) by { RepGood(m, a); }
    Entry(a, t, j);
    ShownPage(m, a, a.stacks[t][j]);
    FirstWord(m.mem, a.small[a.stacks[t][j]], a.stacks[t][j], EntryAddr(a, a.stacks[t], j + 1));
  }

  lemma RepGood(m: Mach, a: Heap)
    requires Rep(m, a, NoHole, map[])
    ensures WF(a)
  {
    hide WF, Placed, Shows, Tops, Bumps, Backs;
  }

  lemma Entry(a: Heap, t: nat, j: nat)
    requires WF(a) && t < NUM_BLOCK_TYPES == |a.stacks| && j < |a.stacks[t]|
    ensures FreeEntry(a, t, a.stacks[t][j]) && SmallOk(a, a.stacks[t][j])
    ensures j + 1 < |a.stacks[t]| ==> FreeEntry(a, t, a.stacks[t][j + 1]) && SmallOk(a, a.stacks[t][j + 1])
    ensures EntryAddr(a, a.stacks[t], j + 1) < Pow256(8)
    ensures a.small[a.stacks[t][j]].data[..8] == Encode(EntryAddr(a, a.stacks[t], j + 1), 8)
  {
    hide Pow256, Encode;
    Pow256Values();
    var s := a.stacks[t];
    assert StackOk(a, t);
    assert FreeEntry(a, t, s[j]) && SmallOk(a, s[j]) && Link(a, s, j);
    if j + 1 < |s| { assert FreeEntry(a, t, s[j + 1]) && SmallOk(a, s[j + 1]); }
  }

  lemma ShownPage(m: Mach, a: Heap, v: int)
    requires Rep(m, a, NoHole, map[]) && v in a.small
    ensures SmallOk(a, v) && v in m.mem && SmallAt(m.mem[v], a.small[v], a.small[v].data)
    ensures Mapped(m.mem, v * PAGE_SIZE, 4) && Load(m.mem, v * PAGE_SIZE, 4) == a.small[v].cls
  {
    hide Tops, Bumps, Backs, Bigs, Keys, Stacks, Larges, Placed, Load, SmallAt;
    assert SmallOk(a, v);
    HeaderRead(m.mem, a, NoHole, v);
    assert Loc(a, NoHole, v) == v && Shown(a, NoHole, v) == a.small[v].data;
  }

  lemma FirstWord(mem: Mem, o: SmallObj, v: int, w: nat)
    requires v in mem && SmallAt(mem[v], o, o.data) && |o.data| >= 8 && w < Pow256(8) && o.data[..8] == Encode(w, 8)
    requires v >= 0
    ensures var x := v * PAGE_SIZE + o.off;
      x > 0 && x / PAGE_SIZE == v && Mapped(mem, x, 8) && Load(mem, x, 8) == w
  {
    hide Pow256, Encode, Decode;
    assert mem[v][o.off..o.off + 8] == mem[v][o.off..o.off + |o.data|][..8];
    PageOffset(v, o.off);
    LoadWord(mem, v, o.off, w, 8);
  }

  /** Following links in memory from top_of_stack visits the free objects of the class in stack
      order, and meets NULL after exactly as many links as there are of them. */
  lemma {:induction false} FreeListChain(m: Mach, a: Heap, t: nat, j: nat)
    requires Rep(m, a, NoHole, map[]) && t < NUM_BLOCK_TYPES == |a.stacks| && j <= |a.stacks[t]| && t < |m.lists|
    ensures j < |a.stacks[t]| ==> FreeEntry(a, t, a.stacks[t][j]) && a.stacks[t][j] >= 0
    ensures Follow(m.mem, m.lists[t].top, j) == EntryAddr(a, a.stacks[t], j)
    ensures Follow(m.mem, m.lists[t].top, j) == 0 <==> j == |a.stacks[t]|
  {
    hide RepMid;
    if j < |a.stacks[t]| { ChainNode(m, a, t, j); }
    if j == 0 {
      ListCount(m, a, NoHole, map[]);
    } else {
      ChainNode(m, a, t, j - 1);
      FreeListChain(m, a, t, j - 1);
    }
  }

  /** No object is on two lists, or twice on one, and a live object is on none. */
  lemma ChainsDisjoint(a: Heap, t: nat, i: nat, u: nat, j: nat)
    requires WF(a) && t < NUM_BLOCK_TYPES && u < NUM_BLOCK_TYPES && i < |a.stacks[t]| && j < |a.stacks[u]|
    ensures a.stacks[t][i] == a.stacks[u][j] <==> t == u && i == j
    ensures a.stacks[t][i] in a.small && !a.small[a.stacks[t][i]].live
  {
    assert StackOk(a, t) && StackOk(a, u);
    assert FreeEntry(a, t, a.stacks[t][i]) && FreeEntry(a, u, a.stacks[u][j]);
  }

  // ----- the walk

  /** Both walks from a pointer into a large object find its first page if and only if no page
      after the first, up to the pointer's, begins with the magic word. */
  lemma InteriorPointer(a: Heap, x: int)
    requires WF(a) && LiveByte(a, x) && !InSmall(a, x)
    ensures var p := a.lpage[x / PAGE_SIZE]; LargeOk(a, p) && p <= x / PAGE_SIZE < p + a.large[p].numPages
    ensures var p := a.lpage[x / PAGE_SIZE]; var o := a.large[p];
      && p <= StopPage(a, x) <= x / PAGE_SIZE
      && (WalkClear(a, x) <==> StopPage(a, x) == p)
      && (StopPage(a, x) == p <==> forall i {:trigger MagicAt(o, i)} :: 1 <= i <= x / PAGE_SIZE - p ==> !MagicAt(o, i))
      && (x / PAGE_SIZE == p ==> StopPage(a, x) == p)
  {
    LiveLarge(a, x);
    var p := a.lpage[x / PAGE_SIZE];
    WalkReachesStart(a.large[p], x / PAGE_SIZE - p);
  }

  // ----- sizes

  /** No operation of the run frees the block of len bytes at q. */
  predicate NotFreed(ops: seq<Op>, q: int, len: nat) {
    forall i :: 0 <= i < |ops| && ops[i].Free? ==> !(q <= ops[i].ptr < q + len)
  }

  /** From malloc until free, whatever else happens: the usable size holds the request, is the
      least power of two from 16 on that does when the request is small, and otherwise rounds up
      to exactly the pages that malloc mapped and free will unmap. */
  lemma SizeContract(a: Heap, n: nat, ops: seq<Op>)
    requires Good(a) && Legal(a, Op.Malloc(n)) && Good(DoMalloc(a, n).0)
    requires LegalRun(DoMalloc(a, n).0, ops)
    requires NotFreed(ops, DoMalloc(a, n).1, |BlockData(DoMalloc(a, n).0, DoMalloc(a, n).1)|)
    ensures var b, r := Run(DoMalloc(a, n).0, ops), DoMalloc(a, n).1;
      && LiveByte(b, r) && n <= Usable(b, r)
      && SizedFor(n, Usable(b, r))
      && ((exists t: nat :: t < 8 && n <= Size(t)) ==>
            && Usable(b, r) == Size(BlockType(n))
            && forall k: nat :: 16 <= Pow2(k) && n <= Pow2(k) ==> Usable(b, r) <= Pow2(k))
      && (n > LARGEST_BLOCK_SIZE ==>
            RoundUp(Usable(b, r), PAGE_SIZE) == NumPages(n) * PAGE_SIZE == Usable(b, r) + HEADER)
  {
    hide WF, Placed, Legal, DoMalloc, Blocks, Size, BlockType, Usable, LiveByte, BlockData;
    var (a', r) := DoMalloc(a, n);
    MallocBlocks(a, n);
    BlockIs(a', r);
    PrivateContents(a', ops, r);
    ReplayLength(Blocks(a')[r], r, ops);
    StartPointer(Run(a', ops), r);
    ClassInNumbers(n);
    if n <= LARGEST_BLOCK_SIZE { LeastPower(n); }
  }

  lemma LeastPower(n: nat)
    requires n <= LARGEST_BLOCK_SIZE
    ensures forall k: nat :: 16 <= Pow2(k) && n <= Pow2(k) ==> Size(BlockType(n)) <= Pow2(k)
  {
    BlockTypeIsLeast(n);
    assert Pow2(3) == 8;
    forall k: nat | 16 <= Pow2(k) && n <= Pow2(k) ensures Size(BlockType(n)) <= Pow2(k) {
      if k < 4 { Pow2Monotone(k, 3); }
      assert n <= Size(k - 4);
      Pow2Monotone(MAGIC_NUMBER + BlockType(n), k);
    }
  }
}
