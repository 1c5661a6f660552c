/** The steps of the threads that change memory, and the main theorem over every step. */
module ThreadMemory {
  import opened Arith
  import opened Memory
  import opened SizeClass
  import opened Heap
  import opened Runs
  import opened Safety
  import opened Layout
  import opened Machine
  import opened Nuaf
  import opened Threads
  import opened ThreadSafety
  import opened ThreadSteps

  // ----- putting a step together

  /** Memory shows the new heap, with the unfinished work of u or of the other holder of g_m. */
  ghost predicate ShownAfter(s: Sys, u: Tid, s': Sys, g': Aux)
    requires u in s'.pcs
  {
    var h := if HoldsGm(s'.pcs[u]) then PcHole(s'.pcs[u]) else HoleOf(s);
    RepMid(s'.m, g'.a, h, g'.pend) && HighOk(s'.m, g'.a, h)
  }

  ghost predicate SameLocks(s: Sys, u: Tid, s': Sys) {
    && OneMoved(s, u, s') && s'.gm == s.gm && s'.gb == s.gb
    && HoldsGm(s'.pcs[u]) == HoldsGm(s.pcs[u]) && HoldsGb(s'.pcs[u]) == HoldsGb(s.pcs[u])
    && (HoldsGm(s'.pcs[u]) || PcHole(s'.pcs[u]) == PcHole(s.pcs[u]))
  }

  lemma Changed(s: Sys, g: Aux, u: Tid, s': Sys, g': Aux)
    requires Inv(s, g) && SameLocks(s, u, s') && ShownAfter(s, u, s', g')
    requires LocalOk(g'.a, g'.pend, s'.pcs[u]) && Unclaimed(s, u, s'.pcs[u])
    requires OthersUndisturbed(s, g, u, g') && Explained(g') && PendHeld(s', g')
    ensures Inv(s', g')
  {
    hide LocalOk, Explained, PendHeld, OthersUndisturbed, Unclaimed, RepMid, HighOk, Custodies, PcHole, HoldsGm,
      HoldsGb;
    LocksSame(s, u, s');
    HoleAfter(s, u, s');
    Assemble(s, g, u, s', g');
  }

  lemma HoleAfter(s: Sys, u: Tid, s': Sys)
    requires LocksOk(s) && LocksOk(s') && SameLocks(s, u, s')
    ensures HoleOf(s') == if HoldsGm(s'.pcs[u]) then PcHole(s'.pcs[u]) else HoleOf(s)
  {
    hide PcHole, HoldsGm, HoldsGb;
  }

  /** A step that changes memory but completes no operation. */
  lemma Working(s: Sys, g: Aux, u: Tid, s': Sys)
    requires Inv(s, g) && SameLocks(s, u, s') && ShownAfter(s, u, s', g)
    requires LocalOk(g.a, g.pend, s'.pcs[u]) && StillHeld(s, u, s')
    ensures Inv(s', g) && OthersUndisturbed(s, g, u, g)
  {
    hide LocalOk, Explained, RepMid, HighOk, PcHole, HoldsGm, HoldsGb, ShownAfter, Building, Owns, Custody;
    KeepsClaim(s, u, s');
    PendFrame(s, g, u, s', g);
    Changed(s, g, u, s', g);
  }

  /** high_vaddr is no part of what memory shows. */
  lemma MidHigh(m: Mach, a: Heap, h: Hole, pend: Pending, high: int)
    requires RepMid(m, a, h, pend)
    ensures RepMid(m.(highVaddr := high), a, h, pend)
  {
    hide Good, Shows, Tops, Bumps, Backs;
  }

  /** The holder of g_m knows the state of its own work. */
  lemma MyHole(s: Sys, g: Aux, u: Tid)
    requires Shared(s, g) && LocksOk(s) && u in s.pcs && HoldsGm(s.pcs[u])
    ensures RepMid(s.m, g.a, PcHole(s.pcs[u]), g.pend) && HighOk(s.m, g.a, PcHole(s.pcs[u]))
  {
    hide RepMid, HighOk, PcHole, HoldsGm, HoldsGb;
    HoleIs(s, u);
  }

  // ----- freelist_pop

  lemma PopTestStep(s: Sys, g: Aux, u: Tid, c: Call)
    requires Ready(s, g, u, c) && s.pcs[u].PopTest?
    ensures Safe(s, g, u, c)
  {
    hide Ready, Inv, Exec, After, Explained, WF, LocalOk, Shared, LocksOk, Locals, Custodies, PendHeld,
      DoPopTest, Allowed, RepMid;
    ReadyParts(s, g, u, c);
    Mine(s, g, u);
    MyHole(s, g, u);
    PopTestCase(s, g, u, c);
    if g.a.stacks[BlockType(s.pcs[u].size)] == [] {
      PopMmap(s, g, u, c);
    } else {
      PopTop(s, g, u, c);
    }
  }

  ghost predicate Testing(s: Sys, g: Aux, u: Tid) {
    && u in s.pcs && s.pcs[u].PopTest? && s.pcs[u].size <= LARGEST_BLOCK_SIZE
    && WF(g.a) && RepMid(s.m, g.a, NoHole, g.pend) && HighOk(s.m, g.a, NoHole)
    && Fits(g.a, Op.Malloc(s.pcs[u].size))
    && BlockType(s.pcs[u].size) < NUM_BLOCK_TYPES == |g.a.stacks| == |g.a.page| == |s.m.lists|
    && PopFits(g.a, BlockType(s.pcs[u].size))
  }

  lemma PopTestCase(s: Sys, g: Aux, u: Tid, c: Call)
    requires u in s.pcs && s.pcs[u].PopTest? && WF(g.a) && LocalOk(g.a, g.pend, s.pcs[u]) && Allowed(s, g, u, c)
    requires RepMid(s.m, g.a, NoHole, g.pend) && HighOk(s.m, g.a, NoHole)
    ensures Testing(s, g, u)
    ensures var t := BlockType(s.pcs[u].size);
      s.m.lists[t].top == 0 <==> g.a.stacks[t] == []
  {
    hide Shows, Placed, Bumps, Backs, Bijection, Stacks, Larges;
    BlockTypeIsLeast(s.pcs[u].size);
    TopIsNull(g.a, BlockType(s.pcs[u].size));
  }

  lemma PopMmap(s: Sys, g: Aux, u: Tid, c: Call)
    requires Inv(s, g) && Testing(s, g, u)
    requires s.m.lists[BlockType(s.pcs[u].size)].top == 0 && g.a.stacks[BlockType(s.pcs[u].size)] == []
    ensures Safe(s, g, u, c)
  {
    hide Inv, RepMid, WF;
    var size := s.pcs[u].size;
    var t := BlockType(size);
    RepMmap(s.m, g.a, g.pend, t);
    var s' := s.(m := FreshMapped(s.m, t), pcs := s.pcs[u := PopHeader(size)]);
    assert Exec(s, u, c) == Next(s') && After(s, g, u, c) == g;
    Working(s, g, u, s');
  }

  lemma PopTop(s: Sys, g: Aux, u: Tid, c: Call)
    requires Inv(s, g) && Testing(s, g, u)
    requires s.m.lists[BlockType(s.pcs[u].size)].top != 0 && g.a.stacks[BlockType(s.pcs[u].size)] != []
    ensures Safe(s, g, u, c)
  {
    hide Inv, RepMid, WF, Step, Legal, Explained, Commit;
    var size := s.pcs[u].size;
    var t := BlockType(size);
    var l := s.m.lists[t];
    RepListPop(s.m, g.a, g.pend, t);
    var s' := s.(m := s.m.(lists := s.m.lists[t := l.(top := Load(s.m.mem, l.top, 8))]),
                 pcs := s.pcs[u := PopDone(l.top)]);
    var op := Op.Malloc(size);
    PopIsStep(g.a, size);
    var g' := Commit(g, u, op, l.top);
    assert Exec(s, u, c) == Next(s') && After(s, g, u, c) == g';
    Popped(s, g, u, s', size, l.top);
  }

  lemma PopIsStep(a: Heap, size: nat)
    requires WF(a) && size <= LARGEST_BLOCK_SIZE && Fits(a, Op.Malloc(size))
    ensures Legal(a, Op.Malloc(size)) && BlockType(size) < NUM_BLOCK_TYPES
    ensures DoMalloc(a, size) == Pop(a, BlockType(size)) && Step(a, Op.Malloc(size)) == Pop(a, BlockType(size)).0
    ensures MovesLists(a, Op.Malloc(size))
  {
    hide WF;
    BlockTypeIsLeast(size);
  }

  /** The object popped is new to everybody. */
  lemma PopIsNew(a: Heap, t: nat)
    requires WF(a) && t < NUM_BLOCK_TYPES && PopFits(a, t)
    ensures SmallStart(Pop(a, t).0, Pop(a, t).1)
    ensures !SmallStart(a, Pop(a, t).1) && !LargeStart(a, Pop(a, t).1)
  {
    PopWF(a, t);
    if a.stacks[t] == [] {
      OffsetBounds(t, |a.page[t]|);
      PageOffset(a.high, Offset(t, |a.page[t]|));
      RangesApart(a, a.high);
    } else {
      var v := a.stacks[t][0];
      PageOffset(v, a.small[v].off);
      RangesApart(a, v);
    }
  }

  /** freelist_pop takes effect. */
  lemma Popped(s: Sys, g: Aux, u: Tid, s': Sys, size: nat, ptr: int)
    requires Inv(s, g) && WF(g.a) && u in s.pcs && HoldsGm(s.pcs[u]) && !Owns(s.pcs[u]) && !HoldsGb(s.pcs[u])
    requires s'.pcs == s.pcs[u := PopDone(ptr)] && s'.gm == s.gm && s'.gb == s.gb
    requires size <= LARGEST_BLOCK_SIZE && Fits(g.a, Op.Malloc(size)) && BlockType(size) < NUM_BLOCK_TYPES
    requires PopFits(g.a, BlockType(size)) && ptr == Pop(g.a, BlockType(size)).1
    requires RepMid(s'.m, Pop(g.a, BlockType(size)).0, NoHole, g.pend)
    requires HighOk(s'.m, Pop(g.a, BlockType(size)).0, NoHole)
    ensures Inv(s', Commit(g, u, Op.Malloc(size), ptr))
    ensures OthersUndisturbed(s, g, u, Commit(g, u, Op.Malloc(size), ptr))
  {
    hide WF, Step, Legal, Explained, Commit, RepMid, Pop, Fits, PopFits, Shared, Locals, Custodies, LocksOk,
      PendHeld;
    var t := BlockType(size);
    var g' := Commit(g, u, Op.Malloc(size), ptr);
    Mine(s, g, u);
    PopIsStep(g.a, size);
    CommitExplained(g, u, Op.Malloc(size), ptr);
    PopIsNew(g.a, t);
    NewUnclaimed(s, g, u, PopDone(ptr));
    Others(s, g, u, g', Op.Malloc(size));
    PendFrame(s, g, u, s', g');
    Changed(s, g, u, s', g');
  }

  /** Nobody has in hand what was no object. */
  lemma NewUnclaimed(s: Sys, g: Aux, u: Tid, pc: Pc)
    requires Locals(s, g) && WF(g.a) && Owns(pc) && !SmallStart(g.a, Custody(pc)) && !LargeStart(g.a, Custody(pc))
    ensures Unclaimed(s, u, pc)
  {
    hide WF, SmallStart, LargeStart, Owns, Custody, LocalOk;
    forall w | w in s.pcs && w != u && Owns(s.pcs[w]) ensures Custody(s.pcs[w]) != Custody(pc) {
      OwnedIsLive(g, s.pcs[w]);
    }
  }

  lemma PopHeaderStep(s: Sys, g: Aux, u: Tid, c: Call)
    requires Ready(s, g, u, c) && s.pcs[u].PopHeader?
    ensures Safe(s, g, u, c)
  {
    hide Ready, Inv, Explained, WF, Shared, LocksOk, Locals, Custodies, PendHeld, Allowed, RepMid, FreshFits;
    ReadyParts(s, g, u, c);
    Mine(s, g, u);
    MyHole(s, g, u);
    var size := s.pcs[u].size;
    RepHeader(s.m, g.a, g.pend, BlockType(size));
    var s' := s.(m := s.m.(mem := StoreHeader(s.m.mem, s.m.highVaddr, BlockType(size))),
                 pcs := s.pcs[u := PopCommit(size)]);
    assert Exec(s, u, c) == Next(s') && After(s, g, u, c) == g;
    Working(s, g, u, s');
  }

  lemma PopCommitStep(s: Sys, g: Aux, u: Tid, c: Call)
    requires Ready(s, g, u, c) && s.pcs[u].PopCommit?
    ensures Safe(s, g, u, c)
  {
    hide Ready, Inv, Explained, WF, Shared, LocksOk, Locals, Custodies, PendHeld, Allowed, RepMid, Commit, Pop;
    ReadyParts(s, g, u, c);
    Mine(s, g, u);
    MyHole(s, g, u);
    var size := s.pcs[u].size;
    var t := BlockType(size);
    ListCount(s.m, g.a, PcHole(s.pcs[u]), g.pend);
    RepFreshCommit(s.m, g.a, g.pend, t);
    var l := s.m.lists[t];
    var m' := s.m.(lists := s.m.lists[t := l.(highCanonical := Bump(t, l.highCanonical))],
                   highVaddr := s.m.highVaddr + PAGE_SIZE);
    var ptr := s.m.highVaddr + l.highCanonical % PAGE_SIZE;
    var s' := s.(m := m', pcs := s.pcs[u := PopDone(ptr)]);
    assert Exec(s, u, c) == Next(s') && After(s, g, u, c) == Commit(g, u, Op.Malloc(size), ptr);
    Popped(s, g, u, s', size, ptr);
  }

  // ----- xxfree of a small object

  lemma StartFacts(a: Heap, start: int)
    requires WF(a) && SmallStart(a, start)
    ensures InSmall(a, start) && StartOf(a, start) == start && start != 0
    ensures RoundDownPage(start) / PAGE_SIZE == start / PAGE_SIZE
    ensures var v, x := start / PAGE_SIZE, a.high * PAGE_SIZE + start % PAGE_SIZE;
      x == a.high * PAGE_SIZE + a.small[v].off && RoundDownPage(x) == a.high * PAGE_SIZE
  {
    RetireAddresses(a, start);
    assert SmallOk(a, start / PAGE_SIZE);
    AboveLarge(a, start);
  }

  lemma FreeMoveStep(s: Sys, g: Aux, u: Tid, c: Call)
    requires Ready(s, g, u, c) && s.pcs[u].FreeMove?
    ensures Safe(s, g, u, c)
  {
    hide Ready, Inv, Explained, WF, Shared, LocksOk, Locals, Custodies, PendHeld, RepMid, RoundDownPage, Mremap;
    ReadyParts(s, g, u, c);
    Mine(s, g, u);
    MyHole(s, g, u);
    var start := s.pcs[u].start;
    var v := start / PAGE_SIZE;
    StartFacts(g.a, start);
    RepMremap(s.m, g.a, g.pend, v);
    var m1 := s.m.(mem := Mremap(s.m.mem, v, g.a.high), backing := (s.m.backing - {v})[g.a.high := s.m.backing[v]]);
    MidHigh(m1, g.a, Moved(v, false), g.pend, s.m.highVaddr + PAGE_SIZE);
    var s' := s.(m := m1.(highVaddr := s.m.highVaddr + PAGE_SIZE),
                 pcs := s.pcs[u := FreeRead(start, s.m.highVaddr + start % PAGE_SIZE)]);
    assert Exec(s, u, c) == Next(s') && After(s, g, u, c) == g;
    Working(s, g, u, s');
  }

  lemma FreeReadStep(s: Sys, g: Aux, u: Tid, c: Call)
    requires Ready(s, g, u, c) && s.pcs[u].FreeRead?
    ensures Safe(s, g, u, c)
  {
    hide Ready, Inv, Explained, WF, Shared, LocksOk, Locals, Custodies, PendHeld, RepMid, RoundDownPage, Plain,
      Safe;
    ReadyParts(s, g, u, c);
    Mine(s, g, u);
    MyHole(s, g, u);
    var start := s.pcs[u].start;
    StartFacts(g.a, start);
    RepLink(s.m, g.a, g.pend, start / PAGE_SIZE);
    assert Exec(s, u, c) == Go(s, u, FreeLink(start, s.pcs[u].newObj, g.a.small[start / PAGE_SIZE].cls));
    Going(s, g, u, FreeLink(start, s.pcs[u].newObj, g.a.small[start / PAGE_SIZE].cls));
    PlainSafe(s, g, u, c);
  }

  lemma FreeLinkStep(s: Sys, g: Aux, u: Tid, c: Call)
    requires Ready(s, g, u, c) && s.pcs[u].FreeLink?
    ensures Safe(s, g, u, c)
  {
    hide Ready, Inv, Explained, WF, Shared, LocksOk, Locals, Custodies, PendHeld, RepMid, RoundDownPage, Mapped,
      Store;
    ReadyParts(s, g, u, c);
    Mine(s, g, u);
    MyHole(s, g, u);
    var start, newObj, t := s.pcs[u].start, s.pcs[u].newObj, s.pcs[u].t;
    StartFacts(g.a, start);
    RepLink(s.m, g.a, g.pend, start / PAGE_SIZE);
    var s' := s.(m := s.m.(mem := Store(s.m.mem, newObj, Encode(s.m.lists[t].top, 8))),
                 pcs := s.pcs[u := FreeCommit(start, newObj, t)]);
    assert Exec(s, u, c) == Next(s') && After(s, g, u, c) == g;
    Working(s, g, u, s');
  }

  lemma FreeIsStep(a: Heap, start: int)
    requires WF(a) && SmallStart(a, start) && a.high < LARGE_PAGE
    ensures StackReady(a, start / PAGE_SIZE)
    ensures Legal(a, Op.Free(start)) && Step(a, Op.Free(start)) == FreeSmall(a, start / PAGE_SIZE)
  {
    StartFacts(a, start);
    FreeIs(a, start);
  }

  lemma FreeCommitStep(s: Sys, g: Aux, u: Tid, c: Call)
    requires Ready(s, g, u, c) && s.pcs[u].FreeCommit?
    ensures Safe(s, g, u, c)
  {
    hide Ready, Inv, Explained, WF, Shared, LocksOk, Locals, Custodies, PendHeld, RepMid, Commit, Step, Legal, Safe;
    ReadyParts(s, g, u, c);
    Mine(s, g, u);
    MyHole(s, g, u);
    var start, newObj, t := s.pcs[u].start, s.pcs[u].newObj, s.pcs[u].t;
    ListCount(s.m, g.a, PcHole(s.pcs[u]), g.pend);
    RepFreeCommit(s.m, g.a, g.pend, start / PAGE_SIZE);
    var s' := s.(m := s.m.(lists := s.m.lists[t := s.m.lists[t].(top := newObj)]), pcs := s.pcs[u := FreeDone]);
    Freed(s, g, u, s', start);
    FreeExec(s, g, u, c, s');
  }

  lemma FreeExec(s: Sys, g: Aux, u: Tid, c: Call, s': Sys)
    requires u in s.pcs && s.pcs[u].FreeCommit? && s.pcs[u].t < |s.m.lists|
    requires var newObj, t := s.pcs[u].newObj, s.pcs[u].t;
      s' == s.(m := s.m.(lists := s.m.lists[t := s.m.lists[t].(top := newObj)]), pcs := s.pcs[u := FreeDone])
    requires Inv(s', Commit(g, u, Op.Free(s.pcs[u].start), 0))
    requires OthersUndisturbed(s, g, u, Commit(g, u, Op.Free(s.pcs[u].start), 0))
    ensures Safe(s, g, u, c)
  {
    hide Inv, Commit;
  }

  /** free of a small object takes effect. */
  lemma Freed(s: Sys, g: Aux, u: Tid, s': Sys, start: int)
    requires Inv(s, g) && WF(g.a) && u in s.pcs && s.pcs[u].FreeCommit? && s.pcs[u].start == start
    requires s'.pcs == s.pcs[u := FreeDone] && s'.gm == s.gm && s'.gb == s.gb
    requires SmallStart(g.a, start) && g.a.high < LARGE_PAGE && StackReady(g.a, start / PAGE_SIZE)
    requires var a' := FreeSmall(g.a, start / PAGE_SIZE);
      RepMid(s'.m, a', NoHole, g.pend) && HighOk(s'.m, a', NoHole)
    ensures Inv(s', Commit(g, u, Op.Free(start), 0))
    ensures OthersUndisturbed(s, g, u, Commit(g, u, Op.Free(start), 0))
  {
    hide WF, Step, Legal, Explained, Commit, RepMid, FreeSmall, Shared, Locals, LocksOk, PendHeld, StackReady,
      OneMoved;
    var g' := Commit(g, u, Op.Free(start), 0);
    Mine(s, g, u);
    FreeIsStep(g.a, start);
    StartFacts(g.a, start);
    CommitExplained(g, u, Op.Free(start), 0);
    Others(s, g, u, g', Op.Free(start));
    OnlyOne(s, u, s');
    PendFrame(s, g, u, s', g');
    Changed(s, g, u, s', g');
  }

  lemma OnlyOne(s: Sys, u: Tid, s': Sys)
    requires u in s.pcs && u in s'.pcs && s'.pcs == s.pcs[u := s'.pcs[u]]
    ensures OneMoved(s, u, s')
  {
  }

  // ----- xxmalloc_big

  lemma BigMapStep(s: Sys, g: Aux, u: Tid, c: Call)
    requires Ready(s, g, u, c) && s.pcs[u].BigMap?
    ensures Safe(s, g, u, c)
  {
    hide Ready, Inv, Explained, WF, Shared, LocksOk, Locals, Custodies, PendHeld, RepMid, Commit, Safe, HoleOf;
    ReadyParts(s, g, u, c);
    Mine(s, g, u);
    var size := s.pcs[u].size;
    NoWrap(size + HEADER);
    LargeNext(s, g);
    var n, p := NumPages(size), g.a.largeHigh;
    RepBigMap(s.m, g.a, HoleOf(s), g.pend, n);
    var s' := s.(m := s.m.(mem := Mmap(s.m.mem, p, n), largeNext := s.m.largeNext + PAGE_SIZE * n),
                 pcs := s.pcs[u := BigUnlock(p, n)]);
    Grown(s, g, u, s', size);
    BigMapExec(s, g, u, c, s');
  }

  lemma LargeNext(s: Sys, g: Aux)
    requires Shared(s, g)
    ensures RepMid(s.m, g.a, HoleOf(s), g.pend) && HighOk(s.m, g.a, HoleOf(s))
    ensures s.m.largeNext == g.a.largeHigh * PAGE_SIZE && s.m.largeNext / PAGE_SIZE == g.a.largeHigh
  {
    hide Good, Shows, Tops, Bumps, Backs, HoleOf;
  }

  lemma BigMapExec(s: Sys, g: Aux, u: Tid, c: Call, s': Sys)
    requires u in s.pcs && s.pcs[u].BigMap? && (s.pcs[u].size + HEADER) % WORD == s.pcs[u].size + HEADER
    requires var size, p := s.pcs[u].size, s.m.largeNext / PAGE_SIZE;
      && s' == s.(m := s.m.(mem := Mmap(s.m.mem, p, NumPages(size)),
                            largeNext := s.m.largeNext + PAGE_SIZE * NumPages(size)),
                  pcs := s.pcs[u := BigUnlock(p, NumPages(size))])
      && Inv(s', Commit(g, u, Op.Malloc(size), LargeAddr(p)).(pend := g.pend[p := false]))
      && OthersUndisturbed(s, g, u, Commit(g, u, Op.Malloc(size), LargeAddr(p)).(pend := g.pend[p := false]))
    ensures Safe(s, g, u, c)
  {
    hide Inv, Commit, Mmap;
  }

  lemma BigIsStep(a: Heap, size: nat)
    requires WF(a) && LARGEST_BLOCK_SIZE < size < SIGN_BIT && Fits(a, Op.Malloc(size))
    ensures Legal(a, Op.Malloc(size)) && !MovesLists(a, Op.Malloc(size))
    ensures DoMalloc(a, size) == (MallocBig(a, NumPages(size)), LargeAddr(a.largeHigh))
    ensures Step(a, Op.Malloc(size)) == MallocBig(a, NumPages(size))
    ensures !SmallStart(a, LargeAddr(a.largeHigh)) && !LargeStart(a, LargeAddr(a.largeHigh))
    ensures LargeAddr(a.largeHigh) / PAGE_SIZE == a.largeHigh
    ensures forall y :: SmallStart(a, y) || LargeStart(a, y) ==> y / PAGE_SIZE != a.largeHigh
  {
    PageOffset(a.largeHigh, HEADER);
    RangesApart(a, a.largeHigh);
  }

  /** xxmalloc_big takes effect: its pages exist, their header does not yet. */
  lemma Grown(s: Sys, g: Aux, u: Tid, s': Sys, size: nat)
    requires Inv(s, g) && WF(g.a) && u in s.pcs && s.pcs[u].BigMap?
    requires LARGEST_BLOCK_SIZE < size < SIGN_BIT && Fits(g.a, Op.Malloc(size))
    requires s'.pcs == s.pcs[u := BigUnlock(g.a.largeHigh, NumPages(size))] && s'.gm == s.gm && s'.gb == s.gb
    requires var a', h := MallocBig(g.a, NumPages(size)), HoleOf(s);
      RepMid(s'.m, a', h, g.pend[g.a.largeHigh := false]) && HighOk(s'.m, a', h)
    ensures Inv(s', Commit(g, u, Op.Malloc(size), LargeAddr(g.a.largeHigh)).(pend := g.pend[g.a.largeHigh := false]))
    ensures OthersUndisturbed(
      s, g, u, Commit(g, u, Op.Malloc(size), LargeAddr(g.a.largeHigh)).(pend := g.pend[g.a.largeHigh := false]))
  {
    hide WF, Step, Legal, Explained, Commit, RepMid, Shared, Locals, LocksOk, PendHeld, OneMoved, HoleOf,
      DoMalloc, Fits, SmallStart, LargeStart;
    var p := g.a.largeHigh;
    var g1 := Commit(g, u, Op.Malloc(size), LargeAddr(p));
    var g' := g1.(pend := g.pend[p := false]);
    Mine(s, g, u);
    BigIsStep(g.a, size);
    CommitExplained(g, u, Op.Malloc(size), LargeAddr(p));
    SameLog(g1, g');
    NewUnclaimed(s, g, u, BigUnlock(p, NumPages(size)));
    Others(s, g, u, g', Op.Malloc(size));
    OnlyOne(s, u, s');
    PendFrame(s, g, u, s', g');
    Changed(s, g, u, s', g');
  }

  lemma SameLog(g: Aux, g': Aux)
    requires Explained(g) && g'.log == g.log && g'.a == g.a
    ensures Explained(g')
  {
  }

  /** A step that finishes part of the header of the large object at p. */
  lemma HeaderStored(s: Sys, g: Aux, u: Tid, s': Sys, g': Aux, p: int)
    requires Inv(s, g) && WF(g.a) && SameLocks(s, u, s') && ShownAfter(s, u, s', g') && g'.a == g.a && g'.log == g.log
    requires Building(s.pcs[u]) && s.pcs[u].p == p && p in g.a.large
    requires forall q :: q != p ==> SamePend(g, g', q)
    requires LocalOk(g'.a, g'.pend, s'.pcs[u])
    requires Owns(s'.pcs[u]) ==> Owns(s.pcs[u]) && Custody(s'.pcs[u]) == Custody(s.pcs[u])
    requires p in g'.pend ==> Building(s'.pcs[u]) && s'.pcs[u].p == p
    requires p in g.pend
    ensures Inv(s', g') && OthersUndisturbed(s, g, u, g')
  {
    hide WF, Explained, RepMid, Shared, LocksOk, PendHeld, HoleOf, SmallStart, LargeStart, ShownAfter, SamePend,
      HoldsGm, HoldsGb;
    Mine(s, g, u);
    SameLog(g, g');
    PendOthers(s, g, u, g', p);
    HeaderPend(s, g, u, s', g', p);
    assert Unclaimed(s, u, s'.pcs[u]);
    Changed(s, g, u, s', g');
  }

  lemma HeaderPend(s: Sys, g: Aux, u: Tid, s': Sys, g': Aux, p: int)
    requires PendHeld(s, g) && OneMoved(s, u, s') && p in g.pend && Building(s.pcs[u]) && s.pcs[u].p == p
    requires forall q :: q != p ==> SamePend(g, g', q)
    requires p in g'.pend ==> Building(s'.pcs[u]) && s'.pcs[u].p == p
    ensures PendHeld(s', g')
  {
    forall q | q != p ensures q in g'.pend ==> q in g.pend { assert SamePend(g, g', q); }
    PendFrame(s, g, u, s', g');
  }

  lemma PendOthers(s: Sys, g: Aux, u: Tid, g': Aux, p: int)
    requires Custodies(s) && Locals(s, g) && u in s.pcs && WF(g.a) && g'.a == g.a
    requires Building(s.pcs[u]) && s.pcs[u].p == p && p in g.a.large
    requires forall q :: q != p ==> SamePend(g, g', q)
    ensures OthersUndisturbed(s, g, u, g')
  {
    hide WF, LocalOk, SmallStart;
    PageOffset(p, HEADER);
    forall w | w in s.pcs && w != u ensures Undisturbed(g, g', s.pcs[w]) {
      if Owns(s.pcs[w]) {
        OwnedIsLive(g, s.pcs[w]);
        ApartPages(g.a, LargeAddr(p), Custody(s.pcs[w]));
        assert SamePend(g, g', Custody(s.pcs[w]) / PAGE_SIZE);
      }
    }
  }

  lemma BigMagicStep(s: Sys, g: Aux, u: Tid, c: Call)
    requires Ready(s, g, u, c) && s.pcs[u].BigMagic?
    ensures Safe(s, g, u, c)
  {
    hide Ready, Inv, Explained, WF, Shared, LocksOk, Locals, Custodies, PendHeld, RepMid, HoleOf, Mapped, Store;
    ReadyParts(s, g, u, c);
    Mine(s, g, u);
    LargeNext(s, g);
    var p, n := s.pcs[u].p, s.pcs[u].n;
    RepMagic(s.m, g.a, HoleOf(s), g.pend, p);
    var s' := s.(m := s.m.(mem := Store(s.m.mem, p * PAGE_SIZE, Encode(LARGE_OBJ_START_MAGIC, 8))),
                 pcs := s.pcs[u := BigCount(p, n)]);
    var g' := g.(pend := g.pend[p := true]);
    assert Exec(s, u, c) == Next(s') && After(s, g, u, c) == g';
    HeaderStored(s, g, u, s', g', p);
  }

  lemma BigCountStep(s: Sys, g: Aux, u: Tid, c: Call)
    requires Ready(s, g, u, c) && s.pcs[u].BigCount?
    ensures Safe(s, g, u, c)
  {
    hide Ready, Inv, Explained, WF, Shared, LocksOk, Locals, Custodies, PendHeld, RepMid, HoleOf, Mapped, Store;
    ReadyParts(s, g, u, c);
    Mine(s, g, u);
    LargeNext(s, g);
    var p, n := s.pcs[u].p, s.pcs[u].n;
    RepCount(s.m, g.a, HoleOf(s), g.pend, p);
    var s' := s.(m := s.m.(mem := Store(s.m.mem, p * PAGE_SIZE + 8, Encode(n, 8))), pcs := s.pcs[u := Idle]);
    var g' := g.(pend := g.pend - {p});
    assert Exec(s, u, c) == Next(s') && After(s, g, u, c) == g';
    HeaderStored(s, g, u, s', g', p);
  }

  // ----- xxfree of a large object

  lemma UnmapStep(s: Sys, g: Aux, u: Tid, c: Call)
    requires Ready(s, g, u, c) && s.pcs[u].Unmap?
    ensures Safe(s, g, u, c)
  {
    hide Ready, Inv, Explained, WF, Shared, LocksOk, Locals, Custodies, PendHeld, RepMid, HoleOf, Munmap,
      RoundUp, RoundDownPage, Commit;
    ReadyParts(s, g, u, c);
    Mine(s, g, u);
    LargeNext(s, g);
    var start, size := s.pcs[u].start, s.pcs[u].size;
    var p := start / PAGE_SIZE;
    UnmapAddresses(g.a, start);
    RepUnmap(s.m, g.a, HoleOf(s), g.pend, p);
    var s' := s.(m := s.m.(mem := Munmap(s.m.mem, p, g.a.large[p].numPages)), pcs := s.pcs[u := Idle]);
    assert Exec(s, u, c) == Next(s') && After(s, g, u, c) == Commit(g, u, Op.Free(LargeAddr(p)), 0);
    Unmapped(s, g, u, s', p);
  }

  lemma UnmapIsStep(a: Heap, p: int)
    requires WF(a) && p in a.large
    ensures LargeStart(a, LargeAddr(p)) && LiveByte(a, LargeAddr(p)) && StartOf(a, LargeAddr(p)) == LargeAddr(p)
    ensures Legal(a, Op.Free(LargeAddr(p))) && !MovesLists(a, Op.Free(LargeAddr(p)))
    ensures Step(a, Op.Free(LargeAddr(p))) == FreeBig(a, p)
  {
    PageOffset(p, HEADER);
    assert LargeOk(a, p);
    RangesApart(a, p);
  }

  /** free of a large object takes effect. */
  lemma Unmapped(s: Sys, g: Aux, u: Tid, s': Sys, p: int)
    requires Inv(s, g) && WF(g.a) && u in s.pcs && s.pcs[u].Unmap? && s.pcs[u].start / PAGE_SIZE == p && p in g.a.large
    requires s'.pcs == s.pcs[u := Idle] && s'.gm == s.gm && s'.gb == s.gb
    requires RepMid(s'.m, FreeBig(g.a, p), HoleOf(s), g.pend) && HighOk(s'.m, FreeBig(g.a, p), HoleOf(s))
    ensures Inv(s', Commit(g, u, Op.Free(LargeAddr(p)), 0))
    ensures OthersUndisturbed(s, g, u, Commit(g, u, Op.Free(LargeAddr(p)), 0))
  {
    hide WF, Step, Legal, Explained, Commit, RepMid, Shared, Locals, LocksOk, PendHeld, HoleOf, SmallStart,
      LargeStart;
    var g' := Commit(g, u, Op.Free(LargeAddr(p)), 0);
    Mine(s, g, u);
    UnmapIsStep(g.a, p);
    CommitExplained(g, u, Op.Free(LargeAddr(p)), 0);
    Others(s, g, u, g', Op.Free(LargeAddr(p)));
    PendFrame(s, g, u, s', g');
    Changed(s, g, u, s', g');
  }

  // ----- client writes

  lemma WriteStep(s: Sys, g: Aux, u: Tid, c: Call)
    requires Ready(s, g, u, c) && s.pcs[u].Idle? && c.CallWrite?
    ensures Safe(s, g, u, c)
  {
    hide Ready, Inv, Explained, WF, Shared, LocksOk, Locals, Custodies, PendHeld, RepMid, HoleOf, Mapped, Store,
      Commit, LiveByte;
    ReadyParts(s, g, u, c);
    Mine(s, g, u);
    LargeNext(s, g);
    WriteApart(s, g, c.addr);
    RepWrite(s.m, g.a, HoleOf(s), g.pend, c.addr, c.b);
    var s' := s.(m := s.m.(mem := Store(s.m.mem, c.addr, [c.b])), pcs := s.pcs[u := Idle]);
    assert Exec(s, u, c) == Next(s') && After(s, g, u, c) == Commit(g, u, Op.Write(c.addr, c.b), 0);
    Written(s, g, u, s', c.addr, c.b);
  }

  /** A byte of an object nobody has in hand is not on a page being moved. */
  lemma WriteApart(s: Sys, g: Aux, x: int)
    requires LocksOk(s) && Locals(s, g) && WF(g.a) && LiveByte(g.a, x) && Loose(s, StartOf(g.a, x)) && Shared(s, g)
    ensures HoleOf(s).Moved? ==> HoleOf(s).v != x / PAGE_SIZE
  {
    hide Shared, LocalOk, WF;
    StartPage(g.a, x);
    LiveStart(g.a, x);
    HoleApart(s, g, StartOf(g.a, x));
    if !InSmall(g.a, x) { HoleInSmall(s, g); RangesApart(g.a, x / PAGE_SIZE); }
  }

  lemma LiveStart(a: Heap, x: int)
    requires WF(a) && LiveByte(a, x)
    ensures SmallStart(a, StartOf(a, x)) || LargeStart(a, StartOf(a, x))
  {
    LiveByteInBlock(a, x);
    InStarts(a, StartOf(a, x));
  }

  lemma HoleInSmall(s: Sys, g: Aux)
    requires Shared(s, g)
    ensures HoleOf(s).Moved? ==> HoleOf(s).v in g.a.small
  {
    hide Good, Tops, Bumps, Backs, Smalls, Bigs, Keys, HoleOf;
  }

  lemma WriteIsStep(a: Heap, x: int, b: byte)
    requires WF(a) && LiveByte(a, x)
    ensures Legal(a, Op.Write(x, b)) && !MovesLists(a, Op.Write(x, b)) && Step(a, Op.Write(x, b)) == DoWrite(a, x, b)
  {
  }

  lemma Written(s: Sys, g: Aux, u: Tid, s': Sys, x: int, b: byte)
    requires Inv(s, g) && WF(g.a) && u in s.pcs && s.pcs[u].Idle? && LiveByte(g.a, x) && Loose(s, StartOf(g.a, x))
    requires s'.pcs == s.pcs[u := Idle] && s'.gm == s.gm && s'.gb == s.gb
    requires RepMid(s'.m, DoWrite(g.a, x, b), HoleOf(s), g.pend) && HighOk(s'.m, DoWrite(g.a, x, b), HoleOf(s))
    ensures Inv(s', Commit(g, u, Op.Write(x, b), 0))
    ensures OthersUndisturbed(s, g, u, Commit(g, u, Op.Write(x, b), 0))
  {
    hide WF, Step, Legal, Explained, Commit, RepMid, Shared, Locals, LocksOk, PendHeld, HoleOf, LiveByte,
      DoWrite, StartOf;
    var g' := Commit(g, u, Op.Write(x, b), 0);
    Mine(s, g, u);
    WriteIsStep(g.a, x, b);
    CommitExplained(g, u, Op.Write(x, b), 0);
    SameHigh(g.a, x, b);
    Others(s, g, u, g', Op.Write(x, b));
    PendFrame(s, g, u, s', g');
    Changed(s, g, u, s', g');
  }

  lemma SameHigh(a: Heap, x: int, b: byte)
    requires LiveByte(a, x)
    ensures DoWrite(a, x, b).high == a.high
  {
  }

  // ----- the main theorem

  /** Every step of every thread, whatever the others have done so far: no access faults, and
      the invariant holds again. */
  lemma StepSafe(s: Sys, g: Aux, u: Tid, c: Call)
    requires Ready(s, g, u, c)
    ensures Safe(s, g, u, c)
  {
    hide Ready, Safe;
    assert u in s.pcs by { ReadyParts(s, g, u, c); }
    match s.pcs[u]
    case Idle => if c.CallWrite? { WriteStep(s, g, u, c); } else { BeginStep(s, g, u, c); }
    case PopTest(_) => PopTestStep(s, g, u, c);
    case PopHeader(_) => PopHeaderStep(s, g, u, c);
    case PopCommit(_) => PopCommitStep(s, g, u, c);
    case BigMap(_) => BigMapStep(s, g, u, c);
    case BigMagic(_, _) => BigMagicStep(s, g, u, c);
    case BigCount(_, _) => BigCountStep(s, g, u, c);
    case FreeHeader(_, _) => FreeHeaderStep(s, g, u, c);
    case WalkSize(_, _, _) => WalkStep(s, g, u, c);
    case WalkCount(_, _, _) => WalkStep(s, g, u, c);
    case WalkStart(_, _, _) => WalkStep(s, g, u, c);
    case Unmap(_, _) => UnmapStep(s, g, u, c);
    case FreeMove(_) => FreeMoveStep(s, g, u, c);
    case FreeRead(_, _) => FreeReadStep(s, g, u, c);
    case FreeLink(_, _, _) => FreeLinkStep(s, g, u, c);
    case FreeCommit(_, _, _) => FreeCommitStep(s, g, u, c);
    case _ => LockStep(s, g, u, c);
  }
}
