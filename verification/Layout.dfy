/** How the abstract heap lies in memory, including the moments in the middle of an operation,
    and the effect of every single memory step of the allocator. */
module Layout {
  import opened Memory
  import opened SizeClass
  import opened Heap
  import opened Runs

  /** What the holder of g_m is in the middle of. Fresh: the page at high_vaddr is mapped for a
      new object of class cls, with its header stored or not. Moved: the page of the object
      being freed is already at high_vaddr, with its link stored or not. */
  datatype Hole = NoHole | Fresh(cls: nat, header: bool) | Moved(v: int, linked: bool)

  /** Large objects whose header is not complete; true once the magic word is there. */
  type Pending = map<int, bool>

  /** The page that shows small object v. */
  function Loc(a: Heap, h: Hole, v: int): int {
    if h.Moved? && h.v == v then a.high else v
  }

  predicate PhysSmall(a: Heap, h: Hole, g: int) {
    (g in a.small && !(h.Moved? && h.v == g)) || (!h.NoHole? && g == a.high)
  }

  predicate Present(a: Heap, h: Hole, g: int) {
    PhysSmall(a, h, g) || g in a.lpage
  }

  ghost predicate HoleOk(a: Heap, h: Hole) {
    match h
    case NoHole => true
    case Fresh(t, _) => t < NUM_BLOCK_TYPES == |a.stacks| && a.stacks[t] == [] && a.high < LARGE_PAGE
    case Moved(v, _) => v in a.small && a.small[v].live && a.high < LARGE_PAGE
  }

  /** top_of_stack of list t. */
  function TopAddr(a: Heap, t: nat): nat {
    if t < |a.stacks| && (a.stacks[t] != [] ==> a.stacks[t][0] in a.small && a.stacks[t][0] >= 0)
    then EntryAddr(a, a.stacks[t], 0) else 0
  }

  /** The object bytes memory shows for v. */
  function Shown(a: Heap, h: Hole, v: int): seq<byte>
    requires v in a.small
  {
    var o := a.small[v];
    if h == Moved(v, true) && |o.data| >= 8 then Linked(o.data, TopAddr(a, o.cls)) else o.data
  }

  /** A page with header o.cls and object bytes d. */
  ghost predicate SmallAt(pg: seq<byte>, o: SmallObj, d: seq<byte>) {
    |pg| == PAGE_SIZE && HEADER <= o.off && o.off + |d| <= PAGE_SIZE
    && pg[0..4] == Encode(o.cls, 4) && pg[o.off..o.off + |d|] == d
  }

  ghost predicate FreshAt(pg: seq<byte>, h: Hole) {
    h.Fresh? ==>
      && |pg| == PAGE_SIZE
      && pg[0..4] == (if h.header then Encode(h.cls, 4) else Zeros(4))
      && pg[HEADER..] == Zeros(PAGE_SIZE - HEADER)
  }

  /** Page j of large object o, whose header may be unfinished. */
  ghost predicate LargeAt(pg: seq<byte>, o: LargeObj, j: int, magic: bool, count: bool) {
    && |pg| == PAGE_SIZE && 0 <= j < o.numPages && |o.data| == o.numPages * PAGE_SIZE - HEADER
    && (j == 0 ==>
          && pg[HEADER..] == o.data[..PAGE_SIZE - HEADER]
          && (magic ==> pg[0..8] == Encode(LARGE_OBJ_START_MAGIC, 8))
          && (count ==> pg[8..16] == Encode(o.numPages, 8)))
    && (j > 0 ==> pg == o.data[j * PAGE_SIZE - HEADER..(j + 1) * PAGE_SIZE - HEADER])
  }

  ghost predicate Smalls(mem: Mem, a: Heap, h: Hole) {
    forall v :: v in a.small ==> Loc(a, h, v) in mem && SmallAt(mem[Loc(a, h, v)], a.small[v], Shown(a, h, v))
  }

  ghost predicate BigPage(mem: Mem, a: Heap, pend: Pending, g: int) {
    g in mem && g in a.lpage && a.lpage[g] in a.large
    && (var p := a.lpage[g];
        LargeAt(mem[g], a.large[p], g - p, p in pend ==> pend[p], p !in pend))
  }

  ghost predicate Bigs(mem: Mem, a: Heap, pend: Pending) {
    forall g :: g in a.lpage ==> BigPage(mem, a, pend, g)
  }

  ghost predicate Keys(mem: Mem, a: Heap, h: Hole) {
    forall g :: g in mem <==> Present(a, h, g)
  }

  /** Memory shows heap a, up to the unfinished work h and pend; nothing else is mapped. */
  ghost predicate Shows(mem: Mem, a: Heap, h: Hole, pend: Pending) {
    && HoleOk(a, h) && pend.Keys <= a.large.Keys
    && Keys(mem, a, h) && Smalls(mem, a, h)
    && (h.Fresh? ==> a.high in mem && FreshAt(mem[a.high], h))
    && Bigs(mem, a, pend)
  }

  /** The part of well-formedness that memory steps rely on. */
  ghost predicate Solid(a: Heap) {
    && a.high <= LARGE_PAGE <= a.largeHigh
    && (forall v :: v in a.small ==>
          var o := a.small[v]; v < a.high && HEADER <= o.off && 16 <= |o.data| && o.off + |o.data| <= PAGE_SIZE)
    && (forall g :: g in a.lpage ==> LARGE_PAGE <= g < a.largeHigh)
    && Larges(a)
  }

  lemma WFSolid(a: Heap)
    requires WF(a)
    ensures Solid(a)
  {
    forall v | v in a.small ensures SmallOk(a, v) { }
    forall g | g in a.lpage ensures LARGE_PAGE <= g < a.largeHigh { RangesApart(a, g); }
  }

  // ----- the steps of freelist_pop

  /** mmap of the page at high_vaddr. */
  lemma MmapStep(mem: Mem, a: Heap, pend: Pending, t: nat)
    requires Solid(a) && Shows(mem, a, NoHole, pend) && HoleOk(a, Fresh(t, false))
    ensures Shows(Mmap(mem, a.high, 1), a, Fresh(t, false), pend)
  {
    hide Smalls, Bigs, Larges;
    var mem' := Mmap(mem, a.high, 1);
    assert forall g :: g != a.high && g in mem ==> g in mem' && mem'[g] == mem[g];
    MmapSmalls(mem, mem', a, t);
    BigsFrame(mem, mem', a, pend);
  }

  lemma MmapSmalls(mem: Mem, mem': Mem, a: Heap, t: nat)
    requires Solid(a) && Smalls(mem, a, NoHole)
    requires forall g :: g != a.high && g in mem ==> g in mem' && mem'[g] == mem[g]
    ensures Smalls(mem', a, Fresh(t, false))
  {
    hide SmallAt, Larges;
  }

  /** The header of a fresh page; not stored when the zero already there is the class. */
  function StoreHeader(mem: Mem, x: int, t: nat): Mem
    requires Mapped(mem, x, 4)
  {
    if Load(mem, x, 4) != t then Store(mem, x, Encode(t, 4)) else mem
  }

  lemma HeaderStep(mem: Mem, a: Heap, pend: Pending, t: nat)
    requires Solid(a) && Shows(mem, a, Fresh(t, false), pend)
    ensures Mapped(mem, a.high * PAGE_SIZE, 4)
    ensures Shows(StoreHeader(mem, a.high * PAGE_SIZE, t), a, Fresh(t, true), pend)
  {
    PageOffset(a.high, 0);
    ZeroWord(4);
    SpliceReads(mem[a.high], 0, Encode(t, 4));
  }

  lemma {:induction false} ZeroWord(n: nat)
    ensures Encode(0, n) == Zeros(n) && Decode(Zeros(n)) == 0
  {
    if n == 0 {
    } else {
      ZeroWord(n - 1);
      assert Zeros(n) == [0] + Zeros(n - 1);
      assert Zeros(n)[1..] == Zeros(n - 1);
    }
  }

  /** The counters move on and the new object exists. */
  lemma FreshCommit(mem: Mem, a: Heap, pend: Pending, o: SmallObj)
    requires Solid(a) && Shows(mem, a, Fresh(o.cls, true), pend) && o.cls < |a.page|
    requires HEADER <= o.off && o.off + |o.data| <= PAGE_SIZE && o.data == Zeros(|o.data|)
    ensures Shows(mem, FreshPop(a, o), NoHole, pend)
  {
    hide Smalls, Bigs, Larges;
    FreshSmalls(mem, a, o);
    SameBigs(mem, a, FreshPop(a, o), pend);
  }

  lemma FreshSmalls(mem: Mem, a: Heap, o: SmallObj)
    requires Solid(a) && Smalls(mem, a, Fresh(o.cls, true)) && o.cls < |a.page|
    requires a.high in mem && FreshAt(mem[a.high], Fresh(o.cls, true))
    requires HEADER <= o.off && o.off + |o.data| <= PAGE_SIZE && o.data == Zeros(|o.data|)
    ensures Smalls(mem, FreshPop(a, o), NoHole)
  {
    hide Larges, Encode;
    var pg := mem[a.high];
    assert pg[o.off..o.off + |o.data|] == pg[HEADER..][o.off - HEADER..o.off - HEADER + |o.data|];
  }

  /** The top of a free list: its link is the entry below. */
  lemma LinkRead(mem: Mem, a: Heap, h: Hole, t: nat)
    requires WF(a) && Smalls(mem, a, h) && !h.Moved? && t < NUM_BLOCK_TYPES && a.stacks[t] != []
    ensures FreeEntry(a, t, a.stacks[t][0]) && SmallOk(a, a.stacks[t][0])
    ensures |a.stacks[t]| > 1 ==> FreeEntry(a, t, a.stacks[t][1]) && SmallOk(a, a.stacks[t][1])
    ensures Mapped(mem, TopAddr(a, t), 8)
    ensures Load(mem, TopAddr(a, t), 8) == EntryAddr(a, a.stacks[t], 1)
  {
    var s := a.stacks[t];
    var v := s[0];
    assert StackOk(a, t);
    assert FreeEntry(a, t, v) && SmallOk(a, v);
    if |s| > 1 { assert FreeEntry(a, t, s[1]) && SmallOk(a, s[1]); }
    assert Link(a, s, 0);
    var o, pg := a.small[v], mem[v];
    assert pg[o.off..o.off + 8] == pg[o.off..o.off + |o.data|][..8];
    Pow256Values();
    LoadWord(mem, v, o.off, EntryAddr(a, s, 1), 8);
  }

  /** Popping a free list changes no byte. */
  lemma ListPopStep(mem: Mem, a: Heap, pend: Pending, t: nat)
    requires Shows(mem, a, NoHole, pend) && t < |a.stacks| && a.stacks[t] != [] && a.stacks[t][0] in a.small
    ensures Shows(mem, ListPop(a, t), NoHole, pend)
  {
  }

  // ----- the steps of xxfree on a small object

  /** mremap of the object's page to high_vaddr. */
  lemma MremapStep(mem: Mem, a: Heap, pend: Pending, v: int)
    requires Solid(a) && Shows(mem, a, NoHole, pend) && HoleOk(a, Moved(v, false))
    ensures v in mem && Shows(Mremap(mem, v, a.high), a, Moved(v, false), pend)
  {
    assert Loc(a, NoHole, v) in mem;
  }

  /** The class in the header of the page that shows v. */
  lemma HeaderRead(mem: Mem, a: Heap, h: Hole, v: int)
    requires Smalls(mem, a, h) && v in a.small && a.small[v].cls < NUM_BLOCK_TYPES
    ensures Mapped(mem, Loc(a, h, v) * PAGE_SIZE, 4)
    ensures Load(mem, Loc(a, h, v) * PAGE_SIZE, 4) == a.small[v].cls
  {
    Pow256Values();
    LoadWord(mem, Loc(a, h, v), 0, a.small[v].cls, 4);
  }

  /** freelist_push stores the old top in the object's first word. */
  lemma LinkStep(mem: Mem, a: Heap, pend: Pending, v: int)
    requires Solid(a) && Shows(mem, a, Moved(v, false), pend)
    ensures var x, link := a.high * PAGE_SIZE + a.small[v].off, Encode(TopAddr(a, a.small[v].cls), 8);
      Mapped(mem, x, 8) && Shows(Store(mem, x, link), a, Moved(v, true), pend)
  {
    LinkPage(mem, a, pend, v);
    PageOffset(a.high, a.small[v].off);
  }

  lemma LinkPage(mem: Mem, a: Heap, pend: Pending, v: int)
    requires Solid(a) && Shows(mem, a, Moved(v, false), pend)
    ensures a.high in mem && |mem[a.high]| == PAGE_SIZE
    ensures var link := Encode(TopAddr(a, a.small[v].cls), 8);
      Shows(mem[a.high := Splice(mem[a.high], a.small[v].off, link)], a, Moved(v, true), pend)
  {
    LinkSmalls(mem, a, v);
    BigsFrame(mem, mem[a.high := Splice(mem[a.high], a.small[v].off, Encode(TopAddr(a, a.small[v].cls), 8))], a, pend);
  }

  lemma LinkSmalls(mem: Mem, a: Heap, v: int)
    requires Solid(a) && Smalls(mem, a, Moved(v, false)) && v in a.small
    ensures a.high in mem && |mem[a.high]| == PAGE_SIZE
    ensures var link := Encode(TopAddr(a, a.small[v].cls), 8);
      Smalls(mem[a.high := Splice(mem[a.high], a.small[v].off, link)], a, Moved(v, true))
  {
    var o := a.small[v];
    assert Loc(a, Moved(v, false), v) == a.high && SmallAt(mem[a.high], o, o.data);
    LinkedBytes(mem[a.high], o, Encode(TopAddr(a, o.cls), 8));
  }

  /** Large objects are shown as before by any change outside their pages. */
  lemma BigsFrame(mem: Mem, mem': Mem, a: Heap, pend: Pending)
    requires Bigs(mem, a, pend)
    requires forall k :: k in a.lpage && k in mem ==> k in mem' && mem'[k] == mem[k]
    ensures Bigs(mem', a, pend)
  {
    forall g | g in a.lpage ensures BigPage(mem', a, pend, g) { assert BigPage(mem, a, pend, g); }
  }

  lemma LinkedBytes(pg: seq<byte>, o: SmallObj, link: seq<byte>)
    requires SmallAt(pg, o, o.data) && |o.data| >= 8 && |link| == 8
    ensures SmallAt(Splice(pg, o.off, link), o, link + o.data[8..])
  {
    var pg' := Splice(pg, o.off, link);
    SpliceReads(pg, o.off, link);
    assert pg'[0..4] == pg[0..4];
    assert pg'[o.off..o.off + |o.data|] == link + pg[o.off..o.off + |o.data|][8..];
  }

  ghost predicate StackReady(a: Heap, v: int) {
    && v in a.small && a.small[v].cls < |a.stacks| == |a.page| == NUM_BLOCK_TYPES
    && a.small[v].idx < |a.page[a.small[v].cls]| && |a.small[v].data| >= 8
    && (var s := a.stacks[a.small[v].cls]; s != [] ==> s[0] in a.small && 0 <= s[0])
  }

  /** The counter and the list move on: the object is free. */
  lemma FreeCommit(mem: Mem, a: Heap, pend: Pending, v: int)
    requires Solid(a) && Shows(mem, a, Moved(v, true), pend) && StackReady(a, v)
    ensures Shows(mem, FreeSmall(a, v), NoHole, pend)
  {
    FreeSmalls(mem, a, v);
    FreeKeys(mem, a, v);
    SameBigs(mem, a, FreeSmall(a, v), pend);
    hide Smalls, Bigs, Keys;
  }

  lemma FreeSmalls(mem: Mem, a: Heap, v: int)
    requires Smalls(mem, a, Moved(v, true)) && StackReady(a, v)
    ensures Smalls(mem, FreeSmall(a, v), NoHole)
  {
    var h, a' := Moved(v, true), FreeSmall(a, v);
    forall w | w in a'.small ensures Loc(a', NoHole, w) in mem && SmallAt(mem[w], a'.small[w], Shown(a', NoHole, w)) {
      var u := if w == a.high then v else w;
      assert Loc(a, h, u) == w && SmallAt(mem[w], a.small[u], Shown(a, h, u));
    }
  }

  lemma FreeKeys(mem: Mem, a: Heap, v: int)
    requires Solid(a) && Keys(mem, a, Moved(v, true)) && StackReady(a, v)
    ensures Keys(mem, FreeSmall(a, v), NoHole)
  {
    forall g ensures Present(FreeSmall(a, v), NoHole, g) <==> Present(a, Moved(v, true), g) { }
  }

  lemma SameBigs(mem: Mem, a: Heap, a': Heap, pend: Pending)
    requires Bigs(mem, a, pend) && a'.large == a.large && a'.lpage == a.lpage
    ensures Bigs(mem, a', pend)
  {
    forall g | g in a'.lpage ensures BigPage(mem, a', pend, g) { assert BigPage(mem, a, pend, g); }
  }

  // ----- the steps of xxmalloc_big, valid whatever the holder of g_m is doing

  /** mmap of n pages at large_obj_next_page, and the counter moves on. */
  lemma BigMapStep(mem: Mem, a: Heap, h: Hole, pend: Pending, n: nat)
    requires Solid(a) && Shows(mem, a, h, pend) && n >= 1
    ensures Shows(Mmap(mem, a.largeHigh, n), MallocBig(a, n), h, pend[a.largeHigh := false])
  {
    var p := a.largeHigh;
    var mem' := Mmap(mem, p, n);
    SmallsFrame(mem, mem', a, MallocBig(a, n), h);
    BigMapBigs(mem, a, pend, n);
  }

  lemma BigMapBigs(mem: Mem, a: Heap, pend: Pending, n: nat)
    requires Solid(a) && Bigs(mem, a, pend) && n >= 1
    ensures Bigs(Mmap(mem, a.largeHigh, n), MallocBig(a, n), pend[a.largeHigh := false])
  {
    var p := a.largeHigh;
    var mem', a', pend' := Mmap(mem, p, n), MallocBig(a, n), pend[p := false];
    forall g | g in a'.lpage ensures BigPage(mem', a', pend', g) {
      if g in a.lpage {
        BigPageFrame(mem, mem', a, a', pend, pend', g);
      } else {
        NewBigPage(mem', a', pend', p, n, g);
      }
    }
  }

  lemma BigPageFrame(mem: Mem, mem': Mem, a: Heap, a': Heap, pend: Pending, pend': Pending, g: int)
    requires g in a.lpage && a.lpage[g] in a.large && BigPage(mem, a, pend, g)
    requires g in mem' && g in mem && mem'[g] == mem[g] && g in a'.lpage
    requires a'.lpage[g] == a.lpage[g] && a.lpage[g] in a'.large && a'.large[a.lpage[g]] == a.large[a.lpage[g]]
    requires a.lpage[g] in pend' <==> a.lpage[g] in pend
    requires a.lpage[g] in pend ==> pend'[a.lpage[g]] == pend[a.lpage[g]]
    ensures BigPage(mem', a', pend', g)
  {
  }

  lemma NewBigPage(mem: Mem, a: Heap, pend: Pending, p: int, n: nat, g: int)
    requires g in mem && mem[g] == Zeros(PAGE_SIZE) && p <= g < p + n
    requires g in a.lpage && a.lpage[g] == p && p in a.large && a.large[p] == LargeObj(n, Zeros(n * PAGE_SIZE - HEADER))
    requires p in pend && !pend[p]
    ensures BigPage(mem, a, pend, g)
  {
    ZeroPage(n, g - p);
  }

  lemma ZeroPage(n: nat, j: nat)
    requires j < n
    ensures LargeAt(Zeros(PAGE_SIZE), LargeObj(n, Zeros(n * PAGE_SIZE - HEADER)), j, false, false)
  {
    var d := Zeros(n * PAGE_SIZE - HEADER);
    if j == 0 {
      assert Zeros(PAGE_SIZE)[HEADER..] == d[..PAGE_SIZE - HEADER];
    } else {
      assert Zeros(PAGE_SIZE) == d[j * PAGE_SIZE - HEADER..(j + 1) * PAGE_SIZE - HEADER];
    }
  }

  /** Small objects are shown as before by any change above the small range. */
  lemma SmallsFrame(mem: Mem, mem': Mem, a: Heap, a': Heap, h: Hole)
    requires Solid(a) && Smalls(mem, a, h) && HoleOk(a, h)
    requires a'.small == a.small && a'.stacks == a.stacks && a'.high == a.high
    requires forall k :: k < LARGE_PAGE && k in mem ==> k in mem' && mem'[k] == mem[k]
    ensures Smalls(mem', a', h)
  {
  }

  /** The magic word is stored. */
  lemma MagicStep(mem: Mem, a: Heap, h: Hole, pend: Pending, p: int)
    requires Solid(a) && Shows(mem, a, h, pend) && p in pend && !pend[p]
    ensures Mapped(mem, p * PAGE_SIZE, 8)
    ensures Shows(Store(mem, p * PAGE_SIZE, Encode(LARGE_OBJ_START_MAGIC, 8)), a, h, pend[p := true])
  {
    assert LargeOk(a, p) && BigPage(mem, a, pend, p);
    PageOffset(p, 0);
    SpliceReads(mem[p], 0, Encode(LARGE_OBJ_START_MAGIC, 8));
    var mem' := Store(mem, p * PAGE_SIZE, Encode(LARGE_OBJ_START_MAGIC, 8));
    SmallsFrame(mem, mem', a, a, h);
    HeaderBigs(mem, mem', a, pend, pend[p := true], p);
  }

  /** A change in the header of p leaves the other large pages as they were. */
  lemma HeaderBigs(mem: Mem, mem': Mem, a: Heap, pend: Pending, pend': Pending, p: int)
    requires Bigs(mem, a, pend) && BigPage(mem', a, pend', p)
    requires forall k :: k != p && k in mem ==> k in mem' && mem'[k] == mem[k]
    requires forall q :: q != p ==> (q in pend' <==> q in pend) && (q in pend ==> pend'[q] == pend[q])
    requires p in a.lpage && a.lpage[p] == p
    ensures Bigs(mem', a, pend')
  {
    forall g | g in a.lpage ensures BigPage(mem', a, pend', g) { assert BigPage(mem, a, pend, g); }
  }

  /** The page count is stored: the object is complete. */
  lemma CountStep(mem: Mem, a: Heap, h: Hole, pend: Pending, p: int)
    requires Solid(a) && Shows(mem, a, h, pend) && p in pend && pend[p]
    ensures Mapped(mem, p * PAGE_SIZE + 8, 8)
    ensures Shows(Store(mem, p * PAGE_SIZE + 8, Encode(a.large[p].numPages, 8)), a, h, pend - {p})
  {
    hide Smalls, SmallAt, Encode;
    assert LargeOk(a, p) && BigPage(mem, a, pend, p);
    PageOffset(p, 8);
    var s := Encode(a.large[p].numPages, 8);
    SpliceReads(mem[p], 8, s);
    var mem' := Store(mem, p * PAGE_SIZE + 8, s);
    SmallsFrame(mem, mem', a, a, h);
    HeaderBigs(mem, mem', a, pend, pend - {p}, p);
  }

  // ----- reading and releasing a large object

  lemma ABigPage(mem: Mem, a: Heap, pend: Pending, g: int)
    requires Bigs(mem, a, pend) && g in a.lpage
    ensures BigPage(mem, a, pend, g)
  {
  }

  lemma ALarge(a: Heap, g: int)
    requires Larges(a)
    ensures g in a.lpage ==> LargeOk(a, a.lpage[g]) && a.lpage[g] <= g < a.lpage[g] + a.large[a.lpage[g]].numPages
    ensures g in a.large ==> LargeOk(a, g) && g in a.lpage && a.lpage[g] == g
  {
    if g in a.large { assert LargeOk(a, g); }
  }

  /** The walk reads the magic word exactly where WalkStop says it stops. */
  lemma MagicRead(mem: Mem, a: Heap, h: Hole, pend: Pending, g: int)
    requires Solid(a) && Shows(mem, a, h, pend) && g in a.lpage && a.lpage[g] !in pend
    ensures Mapped(mem, g * PAGE_SIZE, 8) && LargeOk(a, a.lpage[g])
    ensures Load(mem, g * PAGE_SIZE, 8) == LARGE_OBJ_START_MAGIC <==>
            g == a.lpage[g] || MagicAt(a.large[a.lpage[g]], g - a.lpage[g])
  {
    hide Smalls, Keys, Bigs, Larges, LargeAt, Load, Mapped, MagicAt;
    ALarge(a, g);
    ABigPage(mem, a, pend, g);
    PageMagic(mem, g, a.large[a.lpage[g]], g - a.lpage[g]);
  }

  lemma PageMagic(mem: Mem, g: int, o: LargeObj, j: nat)
    requires g in mem && LargeAt(mem[g], o, j, true, true)
    ensures Mapped(mem, g * PAGE_SIZE, 8)
    ensures Load(mem, g * PAGE_SIZE, 8) == LARGE_OBJ_START_MAGIC <==> j == 0 || MagicAt(o, j)
  {
    hide Encode, Decode, Pow256;
    PageOffset(g, 0);
    Pow256Values();
    if j == 0 {
      LoadWord(mem, g, 0, LARGE_OBJ_START_MAGIC, 8);
    } else {
      var i := j * PAGE_SIZE - HEADER;
      assert mem[g][0..8] == o.data[i..i + 8];
    }
  }

  /** The page count stored after the magic word. */
  lemma CountRead(mem: Mem, a: Heap, h: Hole, pend: Pending, p: int)
    requires Solid(a) && Shows(mem, a, h, pend) && p in a.large && p !in pend && a.largeHigh <= MAX_PAGE
    ensures Mapped(mem, p * PAGE_SIZE + 8, 8)
    ensures Load(mem, p * PAGE_SIZE + 8, 8) == a.large[p].numPages
  {
    hide Smalls, Keys, Bigs, Larges, Encode, Decode, Pow256, Load, Mapped;
    ALarge(a, p);
    ABigPage(mem, a, pend, p);
    Pow256Values();
    LoadWord(mem, p, 8, a.large[p].numPages, 8);
  }

  /** munmap of all the pages of a large object. */
  lemma UnmapStep(mem: Mem, a: Heap, h: Hole, pend: Pending, p: int)
    requires Solid(a) && Shows(mem, a, h, pend) && p in a.large && p !in pend
    ensures Shows(Munmap(mem, p, a.large[p].numPages), FreeBig(a, p), h, pend)
  {
    var n := a.large[p].numPages;
    var mem', a' := Munmap(mem, p, n), FreeBig(a, p);
    assert LargeOk(a, p);
    SmallsFrame(mem, mem', a, a', h);
    UnmapBigs(mem, a, pend, p);
  }

  lemma UnmapBigs(mem: Mem, a: Heap, pend: Pending, p: int)
    requires Solid(a) && Bigs(mem, a, pend) && p in a.large
    ensures Bigs(Munmap(mem, p, a.large[p].numPages), FreeBig(a, p), pend)
  {
    var mem', a' := Munmap(mem, p, a.large[p].numPages), FreeBig(a, p);
    assert LargeOk(a, p);
    forall g | g in a'.lpage ensures BigPage(mem', a', pend, g) { assert BigPage(mem, a, pend, g); }
  }

  // ----- client writes

  lemma WriteSmallStep(mem: Mem, a: Heap, h: Hole, pend: Pending, v: int, x: int, i: nat, b: byte)
    requires Solid(a) && Shows(mem, a, h, pend) && v in a.small && i < |a.small[v].data|
    requires !(h.Moved? && h.v == v) && NotTop(a, v) && x == SmallAddr(a, v) + i
    ensures Mapped(mem, x, 1)
    ensures Shows(Store(mem, x, [b]), WriteSmall(a, v, i, b), h, pend)
  {
    hide Shows;
    WriteSmallPage(mem, a, h, pend, v, i, b);
    var k := a.small[v].off + i;
    PageOffset(v, k);
    StoreAt(mem, x, v, k, [b]);
  }

  lemma WriteSmallPage(mem: Mem, a: Heap, h: Hole, pend: Pending, v: int, i: nat, b: byte)
    requires Solid(a) && Shows(mem, a, h, pend) && v in a.small && i < |a.small[v].data|
    requires !(h.Moved? && h.v == v) && NotTop(a, v)
    ensures v in mem && |mem[v]| == PAGE_SIZE
    ensures Shows(mem[v := Splice(mem[v], a.small[v].off + i, [b])], WriteSmall(a, v, i, b), h, pend)
  {
    hide Bigs, Larges, Splice;
    WriteSmalls(mem, a, h, v, i, b);
    var mem' := mem[v := Splice(mem[v], a.small[v].off + i, [b])];
    BigsFrame(mem, mem', a, pend);
    SameBigs(mem', a, WriteSmall(a, v, i, b), pend);
  }

  lemma WriteSmalls(mem: Mem, a: Heap, h: Hole, v: int, i: nat, b: byte)
    requires Solid(a) && HoleOk(a, h) && Smalls(mem, a, h) && v in a.small && i < |a.small[v].data|
    requires !(h.Moved? && h.v == v) && NotTop(a, v)
    ensures v in mem && |mem[v]| == PAGE_SIZE
    ensures Smalls(mem[v := Splice(mem[v], a.small[v].off + i, [b])], WriteSmall(a, v, i, b), h)
  {
    hide Larges, Splice, Encode;
    assert Loc(a, h, v) == v && SmallAt(mem[v], a.small[v], a.small[v].data);
    PokedBytes(mem[v], a.small[v], i, b);
    var mem', a' := mem[v := Splice(mem[v], a.small[v].off + i, [b])], WriteSmall(a, v, i, b);
    forall w | w in a'.small
      ensures Loc(a', h, w) in mem' && SmallAt(mem'[Loc(a', h, w)], a'.small[w], Shown(a', h, w))
    {
      assert Loc(a, h, w) in mem && SmallAt(mem[Loc(a, h, w)], a.small[w], Shown(a, h, w));
      if w != v { SameTop(a, a', a.small[w].cls, v); }
    }
  }

  lemma SameTop(a: Heap, a': Heap, t: nat, v: int)
    requires NotTop(a, v) && a'.stacks == a.stacks && v in a.small
    requires a'.small.Keys == a.small.Keys && forall w :: w in a.small && w != v ==> a'.small[w] == a.small[w]
    ensures TopAddr(a', t) == TopAddr(a, t)
  {
  }

  /** v is not the top of a free list. */
  ghost predicate NotTop(a: Heap, v: int) {
    forall t :: 0 <= t < |a.stacks| && a.stacks[t] != [] ==> a.stacks[t][0] != v
  }

  lemma PokedBytes(pg: seq<byte>, o: SmallObj, i: nat, b: byte)
    requires SmallAt(pg, o, o.data) && i < |o.data|
    ensures SmallAt(Splice(pg, o.off + i, [b]), o.(data := Poke(o.data, i, b)), Poke(o.data, i, b))
  {
    var pg' := Splice(pg, o.off + i, [b]);
    assert pg' == pg[o.off + i := b];
    assert pg'[0..4] == pg[0..4];
    assert pg'[o.off..o.off + |o.data|] == pg[o.off..o.off + |o.data|][i := b];
  }

  lemma WriteLargeStep(mem: Mem, a: Heap, h: Hole, pend: Pending, p: int, x: int, i: nat, b: byte)
    requires Solid(a) && Shows(mem, a, h, pend) && p in a.large && i < |a.large[p].data| && x == LargeAddr(p) + i
    ensures Mapped(mem, x, 1)
    ensures Shows(Store(mem, x, [b]), WriteLarge(a, p, i, b), h, pend)
  {
    hide Shows, Solid;
    WriteLargePage(mem, a, h, pend, p, i, b);
    LargeByte(p, i);
    StoreAt(mem, x, p + (HEADER + i) / PAGE_SIZE, (HEADER + i) % PAGE_SIZE, [b]);
  }

  lemma StoreAt(mem: Mem, x: int, g: int, k: nat, d: seq<byte>)
    requires x / PAGE_SIZE == g && x % PAGE_SIZE == k && g in mem && k + |d| <= |mem[g]|
    ensures Mapped(mem, x, |d|) && Store(mem, x, d) == mem[g := Splice(mem[g], k, d)]
  {
  }

  lemma LargeByte(p: int, i: nat)
    ensures (LargeAddr(p) + i) / PAGE_SIZE == p + (HEADER + i) / PAGE_SIZE
    ensures (LargeAddr(p) + i) % PAGE_SIZE == (HEADER + i) % PAGE_SIZE
  {
  }

  lemma WriteLargePage(mem: Mem, a: Heap, h: Hole, pend: Pending, p: int, i: nat, b: byte)
    requires Solid(a) && Shows(mem, a, h, pend) && p in a.large && i < |a.large[p].data|
    ensures p + (HEADER + i) / PAGE_SIZE in mem && |mem[p + (HEADER + i) / PAGE_SIZE]| == PAGE_SIZE
    ensures var g := p + (HEADER + i) / PAGE_SIZE;
      Shows(mem[g := Splice(mem[g], (HEADER + i) % PAGE_SIZE, [b])], WriteLarge(a, p, i, b), h, pend)
  {
    var g := p + (HEADER + i) / PAGE_SIZE;
    assert LargeOk(a, p) && BigPage(mem, a, pend, g);
    var mem' := mem[g := Splice(mem[g], (HEADER + i) % PAGE_SIZE, [b])];
    SmallsFrame(mem, mem', a, WriteLarge(a, p, i, b), h);
    WriteBigs(mem, mem', a, pend, p, i, b);
  }

  lemma WriteBigs(mem: Mem, mem': Mem, a: Heap, pend: Pending, p: int, i: nat, b: byte)
    requires Larges(a) && Bigs(mem, a, pend) && p in a.large && i < |a.large[p].data|
    requires var g := p + (HEADER + i) / PAGE_SIZE;
      g in mem && (HEADER + i) % PAGE_SIZE < |mem[g]| && mem' == mem[g := Splice(mem[g], (HEADER + i) % PAGE_SIZE, [b])]
    ensures Bigs(mem', WriteLarge(a, p, i, b), pend)
  {
    hide Splice, LargeAt;
    var a' := WriteLarge(a, p, i, b);
    var k := p + (HEADER + i) / PAGE_SIZE;
    OwnPage(a, p, i);
    forall g | g in a'.lpage ensures BigPage(mem', a', pend, g) {
      assert BigPage(mem, a, pend, g);
      if a.lpage[g] == p {
        PokedPage(mem[g], a.large[p], g - p, i, b, p in pend ==> pend[p], p !in pend);
      } else {
        BigPageFrame(mem, mem', a, a', pend, pend, g);
      }
    }
  }

  /** The page that holds byte i of a large object is one of its own. */
  lemma OwnPage(a: Heap, p: int, i: nat)
    requires Larges(a) && p in a.large && i < |a.large[p].data|
    ensures var k := p + (HEADER + i) / PAGE_SIZE; k in a.lpage && a.lpage[k] == p
  {
    assert LargeOk(a, p);
  }

  lemma PokedPage(pg: seq<byte>, o: LargeObj, j: nat, i: nat, b: byte, magic: bool, count: bool)
    requires LargeAt(pg, o, j, magic, count) && i < |o.data|
    ensures var pg' := if j == (HEADER + i) / PAGE_SIZE then Splice(pg, (HEADER + i) % PAGE_SIZE, [b]) else pg;
      LargeAt(pg', o.(data := Poke(o.data, i, b)), j, magic, count)
  {
    var d := Poke(o.data, i, b);
    var k := (HEADER + i) % PAGE_SIZE;
    if j == (HEADER + i) / PAGE_SIZE {
      var pg' := Splice(pg, k, [b]);
      assert pg' == pg[k := b];
      if j == 0 {
        assert pg'[HEADER..] == d[..PAGE_SIZE - HEADER];
        assert pg'[0..8] == pg[0..8] && pg'[8..16] == pg[8..16];
      } else {
        assert pg' == d[j * PAGE_SIZE - HEADER..(j + 1) * PAGE_SIZE - HEADER];
      }
    } else if j == 0 {
      assert d[..PAGE_SIZE - HEADER] == o.data[..PAGE_SIZE - HEADER];
    } else {
      var lo, hi := j * PAGE_SIZE - HEADER, (j + 1) * PAGE_SIZE - HEADER;
      assert d[lo..hi] == o.data[lo..hi];
    }
  }
}
