/** The allocator's global variables together with memory, and when they represent a heap. */
module Machine {
  import opened Arith
  import opened Memory
  import opened SizeClass
  import opened Heap
  import opened Runs
  import opened Safety
  import opened Layout

  datatype FreeList = FreeList(top: int, highCanonical: nat)

  /** backing: for each small page, the offset in the data file it was mapped from. */
  datatype Mach = Mach(mem: Mem, backing: map<int, int>, lists: seq<FreeList>, highVaddr: int, largeNext: int)

  ghost predicate Tops(lists: seq<FreeList>, a: Heap) {
    |lists| == NUM_BLOCK_TYPES == |a.stacks|
    && forall t :: 0 <= t < NUM_BLOCK_TYPES ==> lists[t].top == TopAddr(a, t)
  }

  ghost predicate Bumps(lists: seq<FreeList>, a: Heap) {
    |lists| == NUM_BLOCK_TYPES == |a.page|
    && forall t :: 0 <= t < NUM_BLOCK_TYPES ==> lists[t].highCanonical == CanonicalAddr(t, |a.page[t]|)
  }

  ghost predicate BackedBy(backing: map<int, int>, g: int, t: nat, n: nat) {
    g in backing && t < NUM_BLOCK_TYPES && backing[g] == CanonicalPage(t, n) * PAGE_SIZE
  }

  /** Every small page is mapped from the canonical page of the object it shows. */
  ghost predicate Backs(backing: map<int, int>, a: Heap, h: Hole) {
    && (forall g :: g in backing <==> PhysSmall(a, h, g))
    && (forall v :: v in a.small ==> BackedBy(backing, Loc(a, h, v), a.small[v].cls, a.small[v].idx))
    && (h.Fresh? ==> h.cls < |a.page| && BackedBy(backing, a.high, h.cls, |a.page[h.cls]|))
  }

  /** Everything but high_vaddr, which moves on in the middle of an operation. */
  ghost predicate RepMid(m: Mach, a: Heap, h: Hole, pend: Pending) {
    && Good(a) && Shows(m.mem, a, h, pend)
    && Tops(m.lists, a) && Bumps(m.lists, a) && Backs(m.backing, a, h)
    && m.largeNext == a.largeHigh * PAGE_SIZE
  }

  ghost predicate Rep(m: Mach, a: Heap, h: Hole, pend: Pending) {
    RepMid(m, a, h, pend) && m.highVaddr == a.high * PAGE_SIZE
  }

  // ----- the free lists' tops

  /** top_of_stack is NULL exactly when the stack is empty. */
  lemma TopIsNull(a: Heap, t: nat)
    requires WF(a) && t < NUM_BLOCK_TYPES
    ensures TopAddr(a, t) == 0 <==> a.stacks[t] == []
    ensures a.stacks[t] != [] ==> FreeEntry(a, t, a.stacks[t][0]) && TopAddr(a, t) == SmallAddr(a, a.stacks[t][0])
  {
    assert StackOk(a, t);
    if a.stacks[t] != [] { assert FreeEntry(a, t, a.stacks[t][0]) && SmallOk(a, a.stacks[t][0]); }
  }

  /** There are eight lists, and their tops are the tops of the stacks. */
  lemma ListCount(m: Mach, a: Heap, h: Hole, pend: Pending)
    requires RepMid(m, a, h, pend)
    ensures |m.lists| == NUM_BLOCK_TYPES == |a.stacks| == |a.page|
    ensures forall t :: 0 <= t < NUM_BLOCK_TYPES ==> m.lists[t].top == TopAddr(a, t)
  {
    hide Shows, Placed, Backs, Bijection, Stacks, Larges, TopAddr;
  }

  // ----- freelist_pop

  lemma FreshTops(lists: seq<FreeList>, a: Heap, o: SmallObj)
    requires WF(a) && Tops(lists, a) && o.cls < |a.page|
    ensures Tops(lists, FreshPop(a, o))
  {
    forall t: nat | t < NUM_BLOCK_TYPES ensures TopAddr(FreshPop(a, o), t) == TopAddr(a, t) {
      TopIsNull(a, t);
      if a.stacks[t] != [] { RangesApart(a, a.stacks[t][0]); }
    }
  }

  lemma BumpStep(lists: seq<FreeList>, a: Heap, o: SmallObj)
    requires Bumps(lists, a) && o.cls < NUM_BLOCK_TYPES
    ensures Bumps(lists[o.cls := FreeList(lists[o.cls].top, Bump(o.cls, lists[o.cls].highCanonical))], FreshPop(a, o))
  {
    BumpIsNext(o.cls, |a.page[o.cls]|);
  }

  lemma FreshBacks(backing: map<int, int>, a: Heap, t: nat, off: nat)
    requires Backs(backing, a, NoHole) && t < NUM_BLOCK_TYPES == |a.page| && a.high !in a.small
    requires off == CanonicalPage(t, |a.page[t]|) * PAGE_SIZE
    ensures Backs(backing[a.high := off], a, Fresh(t, false))
  {
  }

  lemma CommitBacks(backing: map<int, int>, a: Heap, o: SmallObj)
    requires Backs(backing, a, Fresh(o.cls, true)) && o.cls < |a.page| && o.idx == |a.page[o.cls]|
    ensures Backs(backing, FreshPop(a, o), NoHole)
  {
  }

  /** mmap at high_vaddr, from the canonical page of the next object. */
  lemma RepMmap(m: Mach, a: Heap, pend: Pending, t: nat)
    requires Rep(m, a, NoHole, pend) && HoleOk(a, Fresh(t, false))
    ensures m.highVaddr / PAGE_SIZE == a.high
    ensures Rep(m.(mem := Mmap(m.mem, m.highVaddr / PAGE_SIZE, 1),
                   backing := m.backing[m.highVaddr / PAGE_SIZE := RoundDown(m.lists[t].highCanonical, PAGE_SIZE)]),
                a, Fresh(t, false), pend)
  {
    WFSolid(a);
    MmapStep(m.mem, a, pend, t);
    RangesApart(a, a.high);
    CanonicalParts(t, |a.page[t]|);
    FreshBacks(m.backing, a, t, RoundDown(m.lists[t].highCanonical, PAGE_SIZE));
  }

  lemma CanonicalParts(t: nat, n: nat)
    requires t < NUM_BLOCK_TYPES
    ensures RoundDown(CanonicalAddr(t, n), PAGE_SIZE) == CanonicalPage(t, n) * PAGE_SIZE
    ensures CanonicalAddr(t, n) % PAGE_SIZE == Offset(t, n)
  {
    OffsetBounds(t, n);
    PageOffset(CanonicalPage(t, n), Offset(t, n));
  }

  lemma RepHeader(m: Mach, a: Heap, pend: Pending, t: nat)
    requires RepMid(m, a, Fresh(t, false), pend)
    ensures Mapped(m.mem, a.high * PAGE_SIZE, 4)
    ensures RepMid(m.(mem := StoreHeader(m.mem, a.high * PAGE_SIZE, t)), a, Fresh(t, true), pend)
  {
    WFSolid(a);
    HeaderStep(m.mem, a, pend, t);
  }

  /** high_vaddr and the bump pointer move on. */
  lemma RepFreshCommit(m: Mach, a: Heap, pend: Pending, t: nat)
    requires RepMid(m, a, Fresh(t, true), pend) && PopFits(a, t)
    ensures t < NUM_BLOCK_TYPES && a.stacks[t] == []
    ensures var l := m.lists[t];
      Rep(m.(lists := m.lists[t := l.(highCanonical := Bump(t, l.highCanonical))],
             highVaddr := (a.high + 1) * PAGE_SIZE),
          Pop(a, t).0, NoHole, pend)
    ensures Pop(a, t).1 == a.high * PAGE_SIZE + m.lists[t].highCanonical % PAGE_SIZE
  {
    var o := NewObj(a, t);
    OffsetBounds(t, |a.page[t]|);
    CanonicalParts(t, |a.page[t]|);
    WFSolid(a);
    PopGood(a, t);
    FreshCommit(m.mem, a, pend, o);
    FreshTops(m.lists, a, o);
    BumpStep(m.lists, a, o);
    CommitBacks(m.backing, a, o);
  }

  /** The machine after the mmap of a fresh page for class t. */
  function FreshMapped(m: Mach, t: nat): Mach
    requires t < |m.lists|
  {
    var g := m.highVaddr / PAGE_SIZE;
    m.(mem := Mmap(m.mem, g, 1), backing := m.backing[g := RoundDown(m.lists[t].highCanonical, PAGE_SIZE)])
  }

  /** The machine after the whole fresh-object branch of freelist_pop. */
  function FreshDone(m: Mach, t: nat): Mach
    requires t < |m.lists| && Mapped(FreshMapped(m, t).mem, m.highVaddr, 4)
  {
    var m1, l := FreshMapped(m, t), m.lists[t];
    m1.(mem := StoreHeader(m1.mem, m.highVaddr, t),
        lists := m.lists[t := l.(highCanonical := Bump(t, l.highCanonical))],
        highVaddr := m.highVaddr + PAGE_SIZE)
  }

  lemma RepFreshPop(m: Mach, a: Heap, t: nat)
    requires Rep(m, a, NoHole, map[]) && t < NUM_BLOCK_TYPES && PopFits(a, t) && a.stacks[t] == []
    ensures m.highVaddr % PAGE_SIZE == 0 && t < |m.lists| && Mapped(FreshMapped(m, t).mem, m.highVaddr, 4)
    ensures Rep(FreshDone(m, t), Pop(a, t).0, NoHole, map[])
    ensures Pop(a, t).1 == m.highVaddr + m.lists[t].highCanonical % PAGE_SIZE
    ensures |Pop(a, t).0.small| == |a.small| + 1 && Pop(a, t).0.large == a.large
  {
    RepMmap(m, a, map[], t);
    var m1 := FreshMapped(m, t);
    RepHeader(m1, a, map[], t);
    RepFreshCommit(m1.(mem := StoreHeader(m1.mem, m.highVaddr, t)), a, map[], t);
    RangesApart(a, a.high);
  }

  lemma PopGood(a: Heap, t: nat)
    requires Good(a) && t < NUM_BLOCK_TYPES && PopFits(a, t)
    ensures Good(Pop(a, t).0)
  {
    PopWF(a, t);
    PopPlaced(a, t);
  }

  /** Taking the top entry: the list's new top is the link read from it. */
  lemma RepListPop(m: Mach, a: Heap, pend: Pending, t: nat)
    requires Rep(m, a, NoHole, pend) && t < NUM_BLOCK_TYPES && a.stacks[t] != []
    ensures Mapped(m.mem, m.lists[t].top, 8)
    ensures var l := m.lists[t];
      Rep(m.(lists := m.lists[t := l.(top := Load(m.mem, l.top, 8))]), Pop(a, t).0, NoHole, pend)
    ensures Pop(a, t).1 == m.lists[t].top
  {
    LinkRead(m.mem, a, NoHole, t);
    TopIsNull(a, t);
    PopGood(a, t);
    ListPopStep(m.mem, a, pend, t);
    ListPopTops(m.lists, a, t);
    ListPopRest(m, a, t, Load(m.mem, m.lists[t].top, 8));
  }

  lemma ListPopRest(m: Mach, a: Heap, t: nat, top: int)
    requires Bumps(m.lists, a) && Backs(m.backing, a, NoHole)
    requires t < |a.stacks| && t < |m.lists| && a.stacks[t] != [] && a.stacks[t][0] in a.small
    ensures Bumps(m.lists[t := m.lists[t].(top := top)], ListPop(a, t)) && Backs(m.backing, ListPop(a, t), NoHole)
  {
    var a' := ListPop(a, t);
    forall v | v in a'.small ensures BackedBy(m.backing, Loc(a', NoHole, v), a'.small[v].cls, a'.small[v].idx) {
      assert BackedBy(m.backing, Loc(a, NoHole, v), a.small[v].cls, a.small[v].idx);
    }
  }

  lemma ListPopTops(lists: seq<FreeList>, a: Heap, t: nat)
    requires WF(a) && Tops(lists, a) && t < NUM_BLOCK_TYPES && a.stacks[t] != [] && a.stacks[t][0] in a.small
    requires |a.stacks[t]| > 1 ==> FreeEntry(a, t, a.stacks[t][1]) && SmallOk(a, a.stacks[t][1])
    ensures Tops(lists[t := lists[t].(top := EntryAddr(a, a.stacks[t], 1))], ListPop(a, t))
  {
    var a' := ListPop(a, t);
    forall u: nat | u < NUM_BLOCK_TYPES && u != t ensures TopAddr(a', u) == TopAddr(a, u) {
      TopIsNull(a, u);
    }
    assert TopAddr(a', t) == EntryAddr(a, a.stacks[t], 1);
  }

  // ----- xxfree of a small object

  lemma RepMremap(m: Mach, a: Heap, pend: Pending, v: int)
    requires Rep(m, a, NoHole, pend) && HoleOk(a, Moved(v, false))
    ensures v in m.mem && v in m.backing
    ensures RepMid(m.(mem := Mremap(m.mem, v, a.high), backing := (m.backing - {v})[a.high := m.backing[v]]),
                   a, Moved(v, false), pend)
  {
    WFSolid(a);
    MremapStep(m.mem, a, pend, v);
    MremapBacks(m.backing, a, v);
  }

  lemma MremapBacks(backing: map<int, int>, a: Heap, v: int)
    requires Solid(a) && Backs(backing, a, NoHole) && v in a.small
    ensures v in backing && Backs((backing - {v})[a.high := backing[v]], a, Moved(v, false))
  {
    assert BackedBy(backing, Loc(a, NoHole, v), a.small[v].cls, a.small[v].idx);
    var h, b' := Moved(v, false), (backing - {v})[a.high := backing[v]];
    forall w | w in a.small ensures BackedBy(b', Loc(a, h, w), a.small[w].cls, a.small[w].idx) {
      assert BackedBy(backing, Loc(a, NoHole, w), a.small[w].cls, a.small[w].idx);
    }
  }

  lemma RepLink(m: Mach, a: Heap, pend: Pending, v: int)
    requires RepMid(m, a, Moved(v, false), pend)
    ensures v in a.small && SmallOk(a, v) && a.small[v].cls < |m.lists| == NUM_BLOCK_TYPES
    ensures Mapped(m.mem, a.high * PAGE_SIZE, 4) && Load(m.mem, a.high * PAGE_SIZE, 4) == a.small[v].cls
    ensures var x := a.high * PAGE_SIZE + a.small[v].off;
      && Mapped(m.mem, x, 8) && m.lists[a.small[v].cls].top >= 0
      && RepMid(m.(mem := Store(m.mem, x, Encode(m.lists[a.small[v].cls].top, 8))), a, Moved(v, true), pend)
  {
    WFSolid(a);
    assert SmallOk(a, v);
    HeaderRead(m.mem, a, Moved(v, false), v);
    LinkStep(m.mem, a, pend, v);
    LinkBacks(m.backing, a, v);
  }

  lemma LinkBacks(backing: map<int, int>, a: Heap, v: int)
    requires Backs(backing, a, Moved(v, false))
    ensures Backs(backing, a, Moved(v, true))
  {
    var h, h' := Moved(v, false), Moved(v, true);
    forall w | w in a.small ensures BackedBy(backing, Loc(a, h', w), a.small[w].cls, a.small[w].idx) {
      assert BackedBy(backing, Loc(a, h, w), a.small[w].cls, a.small[w].idx);
    }
    assert forall g :: PhysSmall(a, h', g) <==> PhysSmall(a, h, g);
  }

  /** The moved object becomes the top of its list. */
  lemma RepFreeCommit(m: Mach, a: Heap, pend: Pending, v: int)
    requires RepMid(m, a, Moved(v, true), pend)
    ensures SmallOk(a, v) && StackReady(a, v)
    ensures var o := a.small[v];
      Rep(m.(lists := m.lists[o.cls := m.lists[o.cls].(top := a.high * PAGE_SIZE + o.off)],
             highVaddr := (a.high + 1) * PAGE_SIZE),
          FreeSmall(a, v), NoHole, pend)
  {
    WFSolid(a);
    FreeSmallReady(a, v);
    FreeSmallWF(a, v);
    FreeSmallPlaced(a, v);
    FreeCommit(m.mem, a, pend, v);
    FreeTops(m.lists, a, v);
    FreeBumps(m.lists, a, v);
    FreeBacks(m.backing, a, v);
  }

  lemma FreeTops(lists: seq<FreeList>, a: Heap, v: int)
    requires WF(a) && Tops(lists, a) && StackReady(a, v) && a.small[v].live
    ensures var o := a.small[v];
      Tops(lists[o.cls := lists[o.cls].(top := a.high * PAGE_SIZE + o.off)], FreeSmall(a, v))
  {
    var a', t := FreeSmall(a, v), a.small[v].cls;
    forall u: nat | u < NUM_BLOCK_TYPES && u != t ensures TopAddr(a', u) == TopAddr(a, u) {
      TopIsNull(a, u);
      if a.stacks[u] != [] { RangesApart(a, a.stacks[u][0]); }
    }
  }

  lemma FreeBumps(lists: seq<FreeList>, a: Heap, v: int)
    requires Bumps(lists, a) && StackReady(a, v)
    ensures var o := a.small[v];
      Bumps(lists[o.cls := lists[o.cls].(top := a.high * PAGE_SIZE + o.off)], FreeSmall(a, v))
  {
  }

  lemma FreeBacks(backing: map<int, int>, a: Heap, v: int)
    requires Backs(backing, a, Moved(v, true)) && StackReady(a, v)
    ensures Backs(backing, FreeSmall(a, v), NoHole)
  {
    var a' := FreeSmall(a, v);
    forall w | w in a'.small ensures BackedBy(backing, Loc(a', NoHole, w), a'.small[w].cls, a'.small[w].idx) {
      var u := if w == a.high then v else w;
      assert BackedBy(backing, Loc(a, Moved(v, true), u), a.small[u].cls, a.small[u].idx);
    }
  }

  // ----- large objects, whatever the holder of g_m is doing

  /** The small side is untouched by operations on large objects. */
  ghost predicate SmallSide(a: Heap, a': Heap) {
    a'.small == a.small && a'.page == a.page && a'.stacks == a.stacks && a'.high == a.high
  }

  lemma SmallSideRep(m: Mach, a: Heap, a': Heap, h: Hole)
    requires Tops(m.lists, a) && Bumps(m.lists, a) && Backs(m.backing, a, h) && SmallSide(a, a')
    ensures Tops(m.lists, a') && Bumps(m.lists, a') && Backs(m.backing, a', h)
  {
    forall v | v in a'.small ensures BackedBy(m.backing, Loc(a', h, v), a'.small[v].cls, a'.small[v].idx) {
      assert BackedBy(m.backing, Loc(a, h, v), a.small[v].cls, a.small[v].idx);
    }
    forall t ensures TopAddr(a', t) == TopAddr(a, t) { }
  }

  lemma PlacedSame(a: Heap, a': Heap)
    requires Good(a) && WF(a') && SmallSide(a, a')
    ensures Good(a')
  {
  }

  lemma RepBigMap(m: Mach, a: Heap, h: Hole, pend: Pending, n: nat)
    requires RepMid(m, a, h, pend) && n >= 1 && a.largeHigh + n <= MAX_PAGE
    ensures RepMid(m.(mem := Mmap(m.mem, a.largeHigh, n), largeNext := (a.largeHigh + n) * PAGE_SIZE),
                   MallocBig(a, n), h, pend[a.largeHigh := false])
  {
    WFSolid(a);
    MallocBigWF(a, n);
    PlacedSame(a, MallocBig(a, n));
    BigMapStep(m.mem, a, h, pend, n);
    SmallSideRep(m, a, MallocBig(a, n), h);
  }

  lemma RepMagic(m: Mach, a: Heap, h: Hole, pend: Pending, p: int)
    requires RepMid(m, a, h, pend) && p in pend && !pend[p]
    ensures Mapped(m.mem, p * PAGE_SIZE, 8)
    ensures RepMid(m.(mem := Store(m.mem, p * PAGE_SIZE, Encode(LARGE_OBJ_START_MAGIC, 8))), a, h, pend[p := true])
  {
    WFSolid(a);
    MagicStep(m.mem, a, h, pend, p);
  }

  lemma RepCount(m: Mach, a: Heap, h: Hole, pend: Pending, p: int)
    requires RepMid(m, a, h, pend) && p in pend && pend[p]
    ensures Mapped(m.mem, p * PAGE_SIZE + 8, 8) && p in a.large
    ensures RepMid(m.(mem := Store(m.mem, p * PAGE_SIZE + 8, Encode(a.large[p].numPages, 8))), a, h, pend - {p})
  {
    WFSolid(a);
    CountStep(m.mem, a, h, pend, p);
  }

  lemma RepUnmap(m: Mach, a: Heap, h: Hole, pend: Pending, p: int)
    requires RepMid(m, a, h, pend) && p in a.large && p !in pend
    ensures RepMid(m.(mem := Munmap(m.mem, p, a.large[p].numPages)), FreeBig(a, p), h, pend)
  {
    WFSolid(a);
    FreeBigWF(a, p);
    PlacedSame(a, FreeBig(a, p));
    UnmapStep(m.mem, a, h, pend, p);
    SmallSideRep(m, a, FreeBig(a, p), h);
  }

  // ----- client writes

  lemma RepWrite(m: Mach, a: Heap, h: Hole, pend: Pending, x: int, b: byte)
    requires RepMid(m, a, h, pend) && LiveByte(a, x)
    requires h.Moved? ==> x / PAGE_SIZE != h.v
    ensures Mapped(m.mem, x, 1)
    ensures RepMid(m.(mem := Store(m.mem, x, [b])), DoWrite(a, x, b), h, pend)
  {
    StepGood(a, Op.Write(x, b));
    WFSolid(a);
    if InSmall(a, x) { LiveNotTop(a, x / PAGE_SIZE); }
    WriteShows(m.mem, a, h, pend, x, b);
    WriteTables(m, a, h, x, b);
  }

  lemma WriteShows(mem: Mem, a: Heap, h: Hole, pend: Pending, x: int, b: byte)
    requires Solid(a) && Shows(mem, a, h, pend) && LiveByte(a, x)
    requires InSmall(a, x) ==> NotTop(a, x / PAGE_SIZE) && !(h.Moved? && x / PAGE_SIZE == h.v)
    ensures Mapped(mem, x, 1) && Shows(Store(mem, x, [b]), DoWrite(a, x, b), h, pend)
  {
    if InSmall(a, x) {
      WriteSmallStep(mem, a, h, pend, x / PAGE_SIZE, x, x - StartOf(a, x), b);
    } else {
      WriteLargeStep(mem, a, h, pend, a.lpage[x / PAGE_SIZE], x, x - StartOf(a, x), b);
    }
  }

  lemma LiveNotTop(a: Heap, v: int)
    requires WF(a) && v in a.small && a.small[v].live
    ensures NotTop(a, v)
  {
    forall t: nat | t < |a.stacks| && a.stacks[t] != [] ensures a.stacks[t][0] != v { TopIsNull(a, t); }
  }

  lemma WriteTables(m: Mach, a: Heap, h: Hole, x: int, b: byte)
    requires Tops(m.lists, a) && Bumps(m.lists, a) && Backs(m.backing, a, h) && LiveByte(a, x)
    ensures var a' := DoWrite(a, x, b); Tops(m.lists, a') && Bumps(m.lists, a') && Backs(m.backing, a', h)
  {
    var a' := DoWrite(a, x, b);
    forall w | w in a'.small ensures BackedBy(m.backing, Loc(a', h, w), a'.small[w].cls, a'.small[w].idx) {
      assert BackedBy(m.backing, Loc(a, h, w), a.small[w].cls, a.small[w].idx);
    }
    forall t ensures TopAddr(a', t) == TopAddr(a, t) { }
  }

  // ----- whole operations on the machine

  /** The whole of xxmalloc_big. */
  lemma RepMallocBig(m: Mach, a: Heap, n: nat)
    requires Rep(m, a, NoHole, map[]) && n >= 1 && a.largeHigh + n <= MAX_PAGE
    ensures var mem1, x := Mmap(m.mem, a.largeHigh, n), a.largeHigh * PAGE_SIZE;
      && Mapped(mem1, x, 8)
      && (var mem2 := Store(mem1, x, Encode(LARGE_OBJ_START_MAGIC, 8));
          && Mapped(mem2, x + 8, 8)
          && Rep(m.(mem := Store(mem2, x + 8, Encode(n, 8)), largeNext := (a.largeHigh + n) * PAGE_SIZE),
                 MallocBig(a, n), NoHole, map[]))
  {
    hide RepMid;
    var p, a' := a.largeHigh, MallocBig(a, n);
    var none: Pending := map[];
    RepBigMap(m, a, NoHole, none, n);
    var m1 := m.(mem := Mmap(m.mem, p, n), largeNext := (p + n) * PAGE_SIZE);
    assert none[p := false] == map[p := false];
    RepBigHeader(m1, a', p, none[p := false]);
  }

  lemma RepBigHeader(m: Mach, a: Heap, p: int, pend: Pending)
    requires RepMid(m, a, NoHole, pend) && pend == map[p := false] && p in a.large
    ensures Mapped(m.mem, p * PAGE_SIZE, 8)
    ensures var mem2 := Store(m.mem, p * PAGE_SIZE, Encode(LARGE_OBJ_START_MAGIC, 8));
      && Mapped(mem2, p * PAGE_SIZE + 8, 8)
      && RepMid(m.(mem := Store(mem2, p * PAGE_SIZE + 8, Encode(a.large[p].numPages, 8))), a, NoHole, map[])
  {
    hide RepMid;
    RepMagic(m, a, NoHole, pend, p);
    var m2 := m.(mem := Store(m.mem, p * PAGE_SIZE, Encode(LARGE_OBJ_START_MAGIC, 8)));
    RepCount(m2, a, NoHole, pend[p := true], p);
    assert pend[p := true] - {p} == map[];
  }

  /** The whole critical section of xxfree on a small object. */
  lemma RepFreeSmall(m: Mach, a: Heap, v: int)
    requires Rep(m, a, NoHole, map[]) && v in a.small && a.small[v].live && a.high < LARGE_PAGE
    ensures v in m.mem && v in m.backing && m.highVaddr == a.high * PAGE_SIZE
    ensures SmallOk(a, v) && StackReady(a, v)
    ensures var mem1, x, t := Mremap(m.mem, v, a.high), m.highVaddr + a.small[v].off, a.small[v].cls;
      && Mapped(mem1, a.high * PAGE_SIZE, 4) && Load(mem1, a.high * PAGE_SIZE, 4) == t
      && Mapped(mem1, x, 8) && t < |m.lists| == NUM_BLOCK_TYPES && m.lists[t].top >= 0
      && Rep(m.(mem := Store(mem1, x, Encode(m.lists[t].top, 8)),
                backing := (m.backing - {v})[a.high := m.backing[v]],
                lists := m.lists[t := m.lists[t].(top := x)],
                highVaddr := m.highVaddr + PAGE_SIZE), FreeSmall(a, v), NoHole, map[])
  {
    hide RepMid;
    RepMremap(m, a, map[], v);
    var m1 := m.(mem := Mremap(m.mem, v, a.high), backing := (m.backing - {v})[a.high := m.backing[v]]);
    RepLink(m1, a, map[], v);
    var x := a.high * PAGE_SIZE + a.small[v].off;
    RepFreeCommit(m1.(mem := Store(m1.mem, x, Encode(m1.lists[a.small[v].cls].top, 8))), a, map[], v);
  }

  /** Reads on a large object, in one step of either walk. */
  lemma WalkRead(m: Mach, a: Heap, g: int)
    requires Rep(m, a, NoHole, map[]) && g in a.lpage
    ensures LargeOk(a, a.lpage[g]) && Mapped(m.mem, g * PAGE_SIZE, 8)
    ensures Load(m.mem, g * PAGE_SIZE, 8) == LARGE_OBJ_START_MAGIC <==>
            g == a.lpage[g] || MagicAt(a.large[a.lpage[g]], g - a.lpage[g])
  {
    WFSolid(a);
    MagicRead(m.mem, a, NoHole, map[], g);
  }

  /** The word after the one the walk stopped at: the page count, or client bytes. */
  lemma CountWord(m: Mach, a: Heap, g: int)
    requires Rep(m, a, NoHole, map[]) && g in a.lpage
    ensures LargeOk(a, a.lpage[g]) && Mapped(m.mem, g * PAGE_SIZE + 8, 8)
    ensures var p := a.lpage[g]; var k := g - p;
      && 0 <= k < a.large[p].numPages
      && Load(m.mem, g * PAGE_SIZE + 8, 8) ==
         if k == 0 then a.large[p].numPages else Decode(a.large[p].data[k * PAGE_SIZE - 8..k * PAGE_SIZE])
  {
    WFSolid(a);
    var p := a.lpage[g];
    assert LargeOk(a, p);
    if g == p {
      CountRead(m.mem, a, NoHole, map[], p);
    } else {
      SecondWord(m.mem, a, map[], g);
    }
  }

  lemma SecondWord(mem: Mem, a: Heap, pend: Pending, g: int)
    requires Bigs(mem, a, pend) && g in a.lpage && g > a.lpage[g]
    ensures BigPage(mem, a, pend, g) && Mapped(mem, g * PAGE_SIZE + 8, 8)
    ensures var i := (g - a.lpage[g]) * PAGE_SIZE;
      Load(mem, g * PAGE_SIZE + 8, 8) == Decode(a.large[a.lpage[g]].data[i - 8..i])
  {
    assert BigPage(mem, a, pend, g);
    PageOffset(g, 8);
    var i := (g - a.lpage[g]) * PAGE_SIZE;
    assert mem[g][8..16] == a.large[a.lpage[g]].data[i - HEADER + 8..i - HEADER + 16];
  }

  /** The class in a live small object's header, read through any pointer into it. */
  lemma ClassRead(m: Mach, a: Heap, v: int)
    requires Rep(m, a, NoHole, map[]) && v in a.small
    ensures Mapped(m.mem, v * PAGE_SIZE, 4)
    ensures Pow2(Load(m.mem, v * PAGE_SIZE, 4) + MAGIC_NUMBER) == |a.small[v].data|
    ensures PlacedObj(a.small[v])
  {
    assert SmallOk(a, v) && PlacedObj(a.small[v]);
    HeaderRead(m.mem, a, NoHole, v);
  }

  /** The byte of the live object that x points to. */
  function LiveData(a: Heap, x: int): seq<byte>
    requires LiveByte(a, x)
  {
    if InSmall(a, x) then a.small[x / PAGE_SIZE].data else a.large[a.lpage[x / PAGE_SIZE]].data
  }

  /** A byte read through a pointer into a live object is that byte of the object, whatever the
      holder of g_m is doing to other objects. */
  lemma RepRead(m: Mach, a: Heap, h: Hole, pend: Pending, x: int)
    requires RepMid(m, a, h, pend) && LiveByte(a, x) && !(h.Moved? && h.v == x / PAGE_SIZE)
    ensures Mapped(m.mem, x, 1)
    ensures var i := x - StartOf(a, x);
      0 <= i < |LiveData(a, x)| && m.mem[x / PAGE_SIZE][x % PAGE_SIZE] == LiveData(a, x)[i]
  {
    hide Stacks, Bijection, Placed, Tops, Bumps, Backs, Keys, Smalls, Bigs, Larges;
    if InSmall(a, x) { ReadSmall(m.mem, a, h, x); } else { ReadLarge(m.mem, a, pend, x); }
  }

  lemma ReadSmall(mem: Mem, a: Heap, h: Hole, x: int)
    requires Smalls(mem, a, h) && InSmall(a, x) && !(h.Moved? && h.v == x / PAGE_SIZE)
    ensures Mapped(mem, x, 1)
    ensures mem[x / PAGE_SIZE][x % PAGE_SIZE] == a.small[x / PAGE_SIZE].data[x - SmallAddr(a, x / PAGE_SIZE)]
  {
    var v := x / PAGE_SIZE;
    var o, pg := a.small[v], mem[v];
    assert Loc(a, h, v) == v && SmallAt(pg, o, o.data);
    PageOffset(v, x - v * PAGE_SIZE);
    assert pg[o.off..o.off + |o.data|][x - SmallAddr(a, v)] == pg[x % PAGE_SIZE];
  }

  lemma ReadLarge(mem: Mem, a: Heap, pend: Pending, x: int)
    requires Larges(a) && Bigs(mem, a, pend) && InLarge(a, x)
    ensures Mapped(mem, x, 1)
    ensures var p := a.lpage[x / PAGE_SIZE];
      mem[x / PAGE_SIZE][x % PAGE_SIZE] == a.large[p].data[x - LargeAddr(p)]
  {
    hide Bigs, Larges;
    var g := x / PAGE_SIZE;
    assert BigPage(mem, a, pend, g) by { ABigPage(mem, a, pend, g); }
    var p := a.lpage[g];
    OffsetInLarge(p, x);
    LargeAtByte(mem[g], a.large[p], g - p, x % PAGE_SIZE, p in pend ==> pend[p], p !in pend);
  }

  lemma OffsetInLarge(p: int, x: int)
    ensures x - LargeAddr(p) == (x / PAGE_SIZE - p) * PAGE_SIZE + x % PAGE_SIZE - HEADER
    ensures x >= LargeAddr(p) && x / PAGE_SIZE == p ==> x % PAGE_SIZE >= HEADER
  {
  }

  lemma LargeAtByte(pg: seq<byte>, o: LargeObj, j: int, k: nat, magic: bool, count: bool)
    requires LargeAt(pg, o, j, magic, count) && k < PAGE_SIZE && (j == 0 ==> k >= HEADER)
    ensures pg[k] == o.data[j * PAGE_SIZE + k - HEADER]
  {
    if j == 0 {
      assert pg[k] == pg[HEADER..][k - HEADER] == o.data[..PAGE_SIZE - HEADER][k - HEADER];
    } else {
      assert pg[k] == o.data[j * PAGE_SIZE - HEADER..(j + 1) * PAGE_SIZE - HEADER][k];
    }
  }
}
