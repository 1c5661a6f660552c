/** Whole executions of the threads: safety, the sequential explanation, stable headers, and
    freedom from deadlock. */
module ThreadRuns {
  import opened Arith
  import opened Memory
  import opened SizeClass
  import opened Heap
  import opened Runs
  import opened RunSafety
  import opened Layout
  import opened Machine
  import opened Nuaf
  import opened Threads
  import opened ThreadSafety
  import opened ThreadSteps
  import opened ThreadMemory

  // ----- executions

  /** The scheduler lets u run for a step; c is what it calls if it is idle. */
  datatype Move = Move(u: Tid, c: Call)

  datatype End = Faulted | End(s: Sys, g: Aux)

  /** The state init_mem leaves, with every thread idle. */
  function Start(tids: set<Tid>): Sys {
    Sys(Mach(map[], map[], seq(NUM_BLOCK_TYPES, (t: nat) => FreeList(0, t * PAGE_SIZE + BYTE_ALIGNMENT)),
             MMAP_MIN_ADDR, LARGE_OBJ_VADDR_START),
        Unlocked, Unlocked, map u | u in tids :: Idle)
  }

  const NOTHING_DONE := Aux(EMPTY, map[], [])

  /** Run a schedule; a move of a blocked thread changes nothing. */
  ghost function Play(s: Sys, g: Aux, sched: seq<Move>): End
    decreases |sched|
  {
    if sched == [] then End(s, g)
    else if sched[0].u !in s.pcs then Play(s, g, sched[1..])
    else
      match Exec(s, sched[0].u, sched[0].c)
      case Fault => Faulted
      case Blocked => Play(s, g, sched[1..])
      case Next(s') => Play(s', After(s, g, sched[0].u, sched[0].c), sched[1..])
  }

  /** At every move the client keeps its discipline and the address ranges have room. */
  ghost predicate Orderly(s: Sys, g: Aux, sched: seq<Move>)
    decreases |sched|
  {
    if sched == [] then true
    else if sched[0].u !in s.pcs then Orderly(s, g, sched[1..])
    else
      && WF(g.a) && Allowed(s, g, sched[0].u, sched[0].c)
      && match Exec(s, sched[0].u, sched[0].c)
         case Fault => true
         case Blocked => Orderly(s, g, sched[1..])
         case Next(s') => Orderly(s', After(s, g, sched[0].u, sched[0].c), sched[1..])
  }

  lemma StartInv(tids: set<Tid>)
    ensures Inv(Start(tids), NOTHING_DONE)
  {
    hide WF;
    EmptyWF();
    StartRep(Start(tids).m);
  }

  /** No schedule makes a thread touch unmapped memory, and the invariant holds throughout. */
  lemma {:induction false} PlaySafe(s: Sys, g: Aux, sched: seq<Move>)
    requires Inv(s, g) && Orderly(s, g, sched)
    ensures Play(s, g, sched).End?
    ensures Inv(Play(s, g, sched).s, Play(s, g, sched).g)
    decreases |sched|
  {
    hide Inv, Exec, After, Allowed, WF;
    if sched == [] {
    } else {
      var u, c := sched[0].u, sched[0].c;
      if u !in s.pcs {
        PlaySafe(s, g, sched[1..]);
      } else {
        StepSafe(s, g, u, c);
        match Exec(s, u, c)
        case Fault =>
        case Blocked => PlaySafe(s, g, sched[1..]);
        case Next(s') => PlaySafe(s', After(s, g, u, c), sched[1..]);
      }
    }
  }

  /** When no thread is inside the allocator, memory is what the sequential allocator would leave. */
  lemma Quiescent(s: Sys, g: Aux)
    requires Inv(s, g) && forall u :: u in s.pcs ==> s.pcs[u].Idle?
    ensures Rep(s.m, g.a, NoHole, map[])
  {
    hide RepMid, Explained, Locals, Custodies;
    assert !s.gm.Held?;
    forall p ensures p !in g.pend {
      forall u ensures !Builder(s, p, u) { }
    }
    assert g.pend == map[];
  }

  // ----- headers do not change under a reader

  /** While a thread looks for the size and start of its object, no step of another thread
      changes the header it reads. */
  lemma SmallHeaderStable(s: Sys, g: Aux, u: Tid, w: Tid, c: Call)
    requires Ready(s, g, w, c) && u in s.pcs && u != w && s.pcs[u].FreeHeader? && Exec(s, w, c).Next?
    ensures var x, mem, mem' := RoundDownPage(s.pcs[u].x), s.m.mem, Exec(s, w, c).s.m.mem;
      Mapped(mem, x, 4) && Mapped(mem', x, 4) && Load(mem', x, 4) == Load(mem, x, 4)
  {
    hide Ready, Exec, After, Inv, Mapped, Load, RoundDownPage, WF, Shared, LocksOk, Locals, Custodies, PendHeld,
      LocalOk, InSmall;
    ReadyParts(s, g, w, c);
    StepSafe(s, g, w, c);
    var s', g' := Exec(s, w, c).s, After(s, g, w, c);
    OtherStays(s, w, c, u);
    Mine(s, g, u);
    Mine(s', g', u);
    HeaderClass(s, g, u);
    HeaderClass(s', g', u);
    SameClass(g, g', s.pcs[u]);
  }

  lemma OtherStays(s: Sys, w: Tid, c: Call, u: Tid)
    requires w in s.pcs && u in s.pcs && u != w && Exec(s, w, c).Next?
    ensures u in Exec(s, w, c).s.pcs && Exec(s, w, c).s.pcs[u] == s.pcs[u]
  {
    hide Mapped, Load, Store, RoundDownPage, RoundDown, Mremap, Mmap, Munmap, StoreHeader, Found;
  }

  lemma HeaderClass(s: Sys, g: Aux, u: Tid)
    requires u in s.pcs && s.pcs[u].FreeHeader? && Shared(s, g) && LocksOk(s) && Locals(s, g) && Custodies(s) && WF(g.a)
    ensures var x := s.pcs[u].x;
      && Mapped(s.m.mem, RoundDownPage(x), 4) && x / PAGE_SIZE in g.a.small
      && Load(s.m.mem, RoundDownPage(x), 4) == g.a.small[x / PAGE_SIZE].cls
  {
    hide WF, Mapped, Load, HoleOf, Shared, RoundDownPage, LocksOk;
    var x, obj := s.pcs[u].x, s.pcs[u].obj;
    assert LocalOk(g.a, g.pend, s.pcs[u]);
    HoleApart(s, g, obj);
    ReadHeader(s, g, x);
  }

  lemma SameClass(g: Aux, g': Aux, pc: Pc)
    requires pc.FreeHeader? && LocalOk(g.a, g.pend, pc) && Undisturbed(g, g', pc)
    ensures g'.a.small[pc.x / PAGE_SIZE] == g.a.small[pc.x / PAGE_SIZE]
  {
  }

  /** While a thread walks through or is about to unmap its large object, no step of another
      thread changes a byte of any of its pages. */
  lemma LargePagesStable(s: Sys, g: Aux, u: Tid, w: Tid, c: Call, q: int)
    requires Ready(s, g, w, c) && u in s.pcs && u != w && Exec(s, w, c).Next?
    requires s.pcs[u].WalkSize? || s.pcs[u].WalkCount? || s.pcs[u].WalkStart? || s.pcs[u].Unmap?
    requires q in g.a.lpage && g.a.lpage[q] == Custody(s.pcs[u]) / PAGE_SIZE
    ensures var mem, mem' := s.m.mem, Exec(s, w, c).s.m.mem;
      q in mem && q in mem' && mem'[q] == mem[q]
  {
    hide Ready, Exec, After, Inv, WF, Shared, LocksOk, Locals, Custodies, PendHeld, LocalOk, BigPage;
    ReadyParts(s, g, w, c);
    StepSafe(s, g, w, c);
    var s', g' := Exec(s, w, c).s, After(s, g, w, c);
    OtherStays(s, w, c, u);
    Mine(s, g, u);
    Mine(s', g', u);
    var p := g.a.lpage[q];
    SameLarge(g, g', s.pcs[u]);
    LargeSpan(g.a, q);
    LargeSpan(g'.a, p);
    assert q in g'.a.lpage && g'.a.lpage[q] == p;
    AllOfPage(s, g, q);
    AllOfPage(s', g', q);
    OnePage(s.m.mem[q], s'.m.mem[q], g.a.large[p], q - p);
  }

  lemma SameLarge(g: Aux, g': Aux, pc: Pc)
    requires pc.WalkSize? || pc.WalkCount? || pc.WalkStart? || pc.Unmap?
    requires LocalOk(g.a, g.pend, pc) && LocalOk(g'.a, g'.pend, pc) && Undisturbed(g, g', pc)
    ensures var p := Custody(pc) / PAGE_SIZE;
      p in g.a.large && p in g'.a.large && g'.a.large[p] == g.a.large[p] && p !in g.pend && p !in g'.pend
  {
    if pc.Unmap? { PageOffset(pc.start / PAGE_SIZE, HEADER); }
  }

  lemma LargeSpan(a: Heap, q: int)
    requires WF(a)
    ensures q in a.lpage ==> LargeOk(a, a.lpage[q]) && a.lpage[q] <= q < a.lpage[q] + a.large[a.lpage[q]].numPages
    ensures q in a.large ==> LargeOk(a, q)
  {
  }

  lemma AllOfPage(s: Sys, g: Aux, q: int)
    requires Shared(s, g) && q in g.a.lpage && g.a.lpage[q] !in g.pend
    ensures q in s.m.mem && g.a.lpage[q] in g.a.large
    ensures LargeAt(s.m.mem[q], g.a.large[g.a.lpage[q]], q - g.a.lpage[q], true, true)
  {
    hide Good, Tops, Bumps, Backs, Smalls, Keys, HoleOf, LargeAt;
    assert BigPage(s.m.mem, g.a, g.pend, q);
  }

  /** A finished large object determines its pages. */
  lemma OnePage(pg: seq<byte>, pg': seq<byte>, o: LargeObj, j: int)
    requires LargeAt(pg, o, j, true, true) && LargeAt(pg', o, j, true, true)
    ensures pg' == pg
  {
    if j == 0 {
      assert pg == pg[0..8] + pg[8..16] + pg[HEADER..];
      assert pg' == pg'[0..8] + pg'[8..16] + pg'[HEADER..];
    }
  }

  /** Every look of a walk is at a page of the thread's own object, and the object is finished. */
  lemma WalkInside(s: Sys, g: Aux, u: Tid)
    requires Inv(s, g) && u in s.pcs && (s.pcs[u].WalkSize? || s.pcs[u].WalkStart?)
    ensures var q, p := s.pcs[u].cur / PAGE_SIZE, s.pcs[u].obj / PAGE_SIZE;
      q in g.a.lpage && g.a.lpage[q] == p && p !in g.pend && q in s.m.mem
  {
    hide Explained, Custodies, LocksOk, RepMid, PendHeld;
    assert LocalOk(g.a, g.pend, s.pcs[u]);
    Mine(s, g, u);
    LargeSpan(g.a, s.pcs[u].obj / PAGE_SIZE);
    AllOfPage(s, g, s.pcs[u].cur / PAGE_SIZE);
  }

  /** The contents of a live object that nobody has in hand can be read at any moment: they are
      mapped, and memory shows the block's bytes, whatever the threads are in the middle of. */
  lemma LooseBytes(s: Sys, g: Aux, x: int)
    requires Inv(s, g) && LiveByte(g.a, x) && Loose(s, StartOf(g.a, x))
    ensures WF(g.a) && Mapped(s.m.mem, x, 1)
    ensures var b, q := Blocks(g.a), StartOf(g.a, x);
      q in b && 0 <= x - q < |b[q]| && s.m.mem[x / PAGE_SIZE][x % PAGE_SIZE] == b[q][x - q]
  {
    hide Inv, WF, Shared, LocksOk, Locals, Custodies, PendHeld, LocalOk, RepMid, HoleOf, Blocks, LiveByte, Mapped;
    LooseHeap(s, g);
    WriteApart(s, g, x);
    LargeNext(s, g);
    RepRead(s.m, g.a, HoleOf(s), g.pend, x);
    ReadBlock(g.a, x);
  }

  lemma LooseHeap(s: Sys, g: Aux)
    requires Inv(s, g)
    ensures WF(g.a) && Shared(s, g) && LocksOk(s) && Locals(s, g)
  {
    hide LocksOk, Locals, Custodies, PendHeld, Explained, Shows, Placed, Tops, Bumps, Backs;
    hide Shape, Bijection, Stacks, Larges;
  }

  // ----- temporal safety under concurrency

  lemma CommitRetired(g: Aux, u: Tid, op: Op, result: int, q: int)
    requires WF(g.a) && Retired(g.a, q)
    ensures Retired(Commit(g, u, op, result).a, q)
  {
    hide WF, Legal, Step, Retired;
    if Legal(g.a, op) { StepRetired(g.a, op, q); }
  }

  lemma AfterRetired(s: Sys, g: Aux, u: Tid, c: Call, q: int)
    requires u in s.pcs && WF(g.a) && Retired(g.a, q)
    ensures Retired(After(s, g, u, c).a, q)
  {
    hide WF, Commit, Retired;
    forall op, r ensures Retired(Commit(g, u, op, r).a, q) { CommitRetired(g, u, op, r, q); }
  }

  lemma RetiredUnmapped(s: Sys, g: Aux, q: int)
    requires Shared(s, g) && Retired(g.a, q)
    ensures q !in s.m.mem
  {
    hide Bijection, Stacks, Larges, Placed, Tops, Bumps, Backs, Smalls, Bigs, HoleOf;
  }

  /** A page of an object freed at any moment of any execution is unmapped at every later moment
      of every continuation. */
  lemma {:induction false} PlayRetired(s: Sys, g: Aux, sched: seq<Move>, q: int)
    requires Inv(s, g) && Orderly(s, g, sched) && Retired(g.a, q)
    ensures Play(s, g, sched).End? && Retired(Play(s, g, sched).g.a, q) && q !in Play(s, g, sched).s.m.mem
    decreases |sched|
  {
    hide Inv, Exec, After, Allowed, WF, Retired, Shared, LocalOk;
    if sched == [] {
      SharedOf(s, g);
      RetiredUnmapped(s, g, q);
    } else {
      var u, c := sched[0].u, sched[0].c;
      if u !in s.pcs {
        PlayRetired(s, g, sched[1..], q);
      } else {
        StepSafe(s, g, u, c);
        match Exec(s, u, c)
        case Fault =>
        case Blocked => PlayRetired(s, g, sched[1..], q);
        case Next(s') =>
          AfterRetired(s, g, u, c, q);
          PlayRetired(s', After(s, g, u, c), sched[1..], q);
      }
    }
  }

  /** Page q belongs to the object whose free takes effect when thread u moves. */
  ghost predicate BeingFreed(a: Heap, pc: Pc, q: int) {
    (pc.FreeCommit? && q == pc.start / PAGE_SIZE) || (pc.Unmap? && q in a.lpage && a.lpage[q] == pc.start / PAGE_SIZE)
  }

  lemma FreedRetires(s: Sys, g: Aux, u: Tid, c: Call, q: int)
    requires u in s.pcs && WF(g.a) && LocalOk(g.a, g.pend, s.pcs[u]) && BeingFreed(g.a, s.pcs[u], q)
    ensures Retired(After(s, g, u, c).a, q)
  {
    hide WF, Legal, Retired;
    var x := Custody(s.pcs[u]);
    if s.pcs[u].FreeCommit? {
      StartFacts(g.a, x);
      FreeIsStep(g.a, x);
    } else {
      UnmapIsStep(g.a, s.pcs[u].start / PAGE_SIZE);
      LargeFirst(g.a, s.pcs[u].start / PAGE_SIZE);
    }
    FreeRetires(g.a, x, q);
  }

  lemma LargeFirst(a: Heap, p: int)
    requires WF(a) && p in a.large
    ensures LargeAddr(p) / PAGE_SIZE == p && p in a.lpage && a.lpage[p] == p
    ensures !InSmall(a, LargeAddr(p)) && LargeAddr(p) != 0
  {
    PageOffset(p, HEADER);
    RangesApart(a, p);
    assert LargeOk(a, p);
  }

  /** No use after free: from the step in which a free takes effect, no page of the object is
      mapped, however the threads go on. */
  lemma NoUseAfterFree(s: Sys, g: Aux, u: Tid, c: Call, sched: seq<Move>, q: int)
    requires Ready(s, g, u, c) && BeingFreed(g.a, s.pcs[u], q) && Exec(s, u, c).Next?
    requires Orderly(Exec(s, u, c).s, After(s, g, u, c), sched)
    ensures Play(Exec(s, u, c).s, After(s, g, u, c), sched).End?
    ensures q !in Play(Exec(s, u, c).s, After(s, g, u, c), sched).s.m.mem
  {
    hide Ready, Exec, After, Inv, WF, Shared, LocksOk, Locals, Custodies, PendHeld, LocalOk, BeingFreed,
      Orderly, Play, Retired;
    ReadyParts(s, g, u, c);
    Mine(s, g, u);
    StepSafe(s, g, u, c);
    FreedRetires(s, g, u, c, q);
    PlayRetired(Exec(s, u, c).s, After(s, g, u, c), sched, q);
  }

  lemma SharedOf(s: Sys, g: Aux)
    requires Inv(s, g)
    ensures Shared(s, g)
  {
    hide Shared, Explained, Locals;
  }

  // ----- deadlock

  predicate Waiting(s: Sys, u: Tid)
    requires u in s.pcs
  {
    Exec(s, u, CallLock).Blocked?
  }

  /** A thread waits only for g_m with neither mutex in hand, or for g_big_obj_m without it. */
  lemma WaitsFor(s: Sys, u: Tid, c: Call)
    requires u in s.pcs
    ensures Exec(s, u, c).Blocked? <==>
      (((s.pcs[u].PopWait? || s.pcs[u].FreeWait? || s.pcs[u].LockFirst?) && s.gm.Held?)
       || ((s.pcs[u].BigWait? || s.pcs[u].LockSecond?) && s.gb.Held?))
    ensures HoldsGb(s.pcs[u]) ==> !Exec(s, u, c).Blocked?
    ensures HoldsGm(s.pcs[u]) && Exec(s, u, c).Blocked? ==> s.pcs[u].LockSecond? && s.gb.Held?
  {
    hide Mapped, Load, Store, RoundDownPage, RoundDown, Mremap, Mmap, Munmap, StoreHeader, Found;
  }

  /** g_m is taken before g_big_obj_m, so whenever a thread is inside the allocator, some thread
      inside it can move. */
  lemma NoDeadlock(s: Sys, g: Aux, u: Tid)
    requires Inv(s, g) && u in s.pcs && !s.pcs[u].Idle?
    ensures exists w :: w in s.pcs && !s.pcs[w].Idle? && !Waiting(s, w)
  {
    hide Exec, Explained, RepMid, Locals, Custodies, PendHeld;
    WaitsFor(s, u, CallLock);
    if Waiting(s, u) {
      if s.gb.Held? {
        WaitsFor(s, s.gb.owner, CallLock);
        assert !Waiting(s, s.gb.owner);
      } else {
        WaitsFor(s, s.gm.owner, CallLock);
        assert !Waiting(s, s.gm.owner);
      }
    } else {
      assert !Waiting(s, u);
    }
  }

  // ----- progress

  /** A bound on the steps u has left in its call. */
  function Left(pc: Pc): int {
    match pc
    case Idle => 0
    case PopWait(_) => 5
    case PopTest(_) => 4
    case PopHeader(_) => 3
    case PopCommit(_) => 2
    case PopDone(_) => 1
    case BigWait(_) => 5
    case BigMap(_) => 4
    case BigUnlock(_, _) => 3
    case BigMagic(_, _) => 2
    case BigCount(_, _) => 1
    case FreeHeader(_, _) => 7
    case WalkSize(x, cur, obj) => 9 + (x / PAGE_SIZE - obj / PAGE_SIZE) + (cur / PAGE_SIZE - obj / PAGE_SIZE)
    case WalkCount(x, _, obj) => 8 + (x / PAGE_SIZE - obj / PAGE_SIZE)
    case WalkStart(cur, _, obj) => 7 + (cur / PAGE_SIZE - obj / PAGE_SIZE)
    case Unmap(_, _) => 1
    case FreeWait(_) => 6
    case FreeMove(_) => 5
    case FreeRead(_, _) => 4
    case FreeLink(_, _, _) => 3
    case FreeCommit(_, _, _) => 2
    case FreeDone => 1
    case LockFirst => 4
    case LockSecond => 3
    case Both => 2
    case UnlockSecond => 1
  }

  lemma LeftNat(a: Heap, pend: Pending, pc: Pc)
    requires LocalOk(a, pend, pc)
    ensures Left(pc) >= 0
  {
  }

  predicate Walking(pc: Pc) {
    pc.WalkSize? || pc.WalkCount? || pc.WalkStart?
  }

  lemma LockFalls(s: Sys, u: Tid, c: Call)
    requires u in s.pcs && Locking(s.pcs[u]) && Exec(s, u, c).Next?
    ensures u in Exec(s, u, c).s.pcs && Exec(s, u, c).s.pcs == s.pcs[u := Exec(s, u, c).s.pcs[u]]
    ensures Left(Exec(s, u, c).s.pcs[u]) < Left(s.pcs[u])
  {
  }

  lemma StepFalls(s: Sys, u: Tid, c: Call)
    requires u in s.pcs && !s.pcs[u].Idle? && !Walking(s.pcs[u]) && !Locking(s.pcs[u]) && Exec(s, u, c).Next?
    ensures u in Exec(s, u, c).s.pcs && Exec(s, u, c).s.pcs == s.pcs[u := Exec(s, u, c).s.pcs[u]]
    ensures Left(Exec(s, u, c).s.pcs[u]) < Left(s.pcs[u])
  {
    hide Mapped, Load, Store, RoundDownPage, RoundDown, Mremap, Mmap, Munmap, StoreHeader;
  }

  lemma WalkFalls(s: Sys, a: Heap, pend: Pending, u: Tid, c: Call)
    requires u in s.pcs && Walking(s.pcs[u]) && LocalOk(a, pend, s.pcs[u]) && Exec(s, u, c).Next?
    ensures u in Exec(s, u, c).s.pcs && Exec(s, u, c).s.pcs == s.pcs[u := Exec(s, u, c).s.pcs[u]]
    ensures Left(Exec(s, u, c).s.pcs[u]) < Left(s.pcs[u])
  {
    hide Mapped, Load, RoundDownPage, WalkStop;
    if !s.pcs[u].WalkCount? { PageParts(s.pcs[u].cur); }
  }

  /** us lists every thread once. */
  ghost predicate Lists(us: seq<Tid>, pcs: map<Tid, Pc>) {
    && (forall u :: u in pcs ==> u in us) && (forall i :: 0 <= i < |us| ==> us[i] in pcs)
    && (forall i, j :: 0 <= i < j < |us| ==> us[i] != us[j])
  }

  /** The steps left in all the calls under way. */
  function Total(pcs: map<Tid, Pc>, us: seq<Tid>): int
    requires forall i :: 0 <= i < |us| ==> us[i] in pcs
  {
    if us == [] then 0 else Left(pcs[us[0]]) + Total(pcs, us[1..])
  }

  lemma {:induction false} TotalUpdate(pcs: map<Tid, Pc>, us: seq<Tid>, u: Tid, pc: Pc)
    requires forall i :: 0 <= i < |us| ==> us[i] in pcs
    requires u in pcs && forall i, j :: 0 <= i < j < |us| ==> us[i] != us[j]
    ensures Total(pcs[u := pc], us) == Total(pcs, us) + (if u in us then Left(pc) - Left(pcs[u]) else 0)
  {
    hide Left;
    if us == [] {
    } else {
      TotalUpdate(pcs, us[1..], u, pc);
    }
  }

  lemma {:induction false} TotalNat(a: Heap, pend: Pending, pcs: map<Tid, Pc>, us: seq<Tid>)
    requires forall i :: 0 <= i < |us| ==> us[i] in pcs && LocalOk(a, pend, pcs[us[i]])
    ensures Total(pcs, us) >= 0
  {
    hide Left, LocalOk;
    if us == [] {
    } else {
      LeftNat(a, pend, pcs[us[0]]);
      TotalNat(a, pend, pcs, us[1..]);
    }
  }

  /** No move begins a call or is wasted on a blocked thread. */
  ghost predicate Busy(s: Sys, g: Aux, sched: seq<Move>)
    decreases |sched|
  {
    sched == [] ||
    (sched[0].u in s.pcs && !s.pcs[sched[0].u].Idle?
     && match Exec(s, sched[0].u, sched[0].c)
        case Next(s') => Busy(s', After(s, g, sched[0].u, sched[0].c), sched[1..])
        case _ => false)
  }

  /** Once calls stop coming, those under way finish, however they are scheduled: no schedule is
      longer than the steps left. */
  lemma {:induction false} Drains(s: Sys, g: Aux, us: seq<Tid>, sched: seq<Move>)
    requires Inv(s, g) && Lists(us, s.pcs) && Orderly(s, g, sched) && Busy(s, g, sched)
    ensures |sched| <= Total(s.pcs, us)
    decreases |sched|
  {
    hide Inv, Exec, After, Allowed, WF, Left, Total, LocalOk;
    CallsLeft(s, g, us);
    if sched == [] {
    } else {
      var u, c := sched[0].u, sched[0].c;
      StepSafe(s, g, u, c);
      var s' := Exec(s, u, c).s;
      Mine(s, g, u);
      if Walking(s.pcs[u]) {
        WalkFalls(s, g.a, g.pend, u, c);
      } else if Locking(s.pcs[u]) {
        LockFalls(s, u, c);
      } else {
        StepFalls(s, u, c);
      }
      TotalUpdate(s.pcs, us, u, s'.pcs[u]);
      Drains(s', After(s, g, u, c), us, sched[1..]);
    }
  }

  lemma CallsLeft(s: Sys, g: Aux, us: seq<Tid>)
    requires Inv(s, g) && Lists(us, s.pcs)
    ensures Total(s.pcs, us) >= 0
  {
    hide Inv, WF, Shared, Left, LocalOk, Locals, LocksOk, Custodies, PendHeld, Total;
    forall i | 0 <= i < |us| ensures us[i] in s.pcs && LocalOk(g.a, g.pend, s.pcs[us[i]]) {
      Mine(s, g, us[i]);
    }
    TotalNat(g.a, g.pend, s.pcs, us);
  }
}
