/** Threads in the allocator: the program of each thread, one shared step at a time, and the
    invariant of every interleaving.

    A step is one acquisition or release of a mutex, one call of the kernel, or one access to
    object or header memory; counters and list heads, touched only under their mutex, move
    together with the access next to them, and the header of a page fresh from mmap, which no
    other thread can reach, is tested and stored in one step. */
module Threads {
  import opened Arith
  import opened Memory
  import opened SizeClass
  import opened Heap
  import opened Runs
  import opened Safety
  import opened RunSafety
  import opened Layout
  import opened Machine
  import opened Nuaf

  type Tid = int

  datatype Lock = Unlocked | Held(owner: Tid)

  /** Where a thread is, with its local variables. obj, in the steps that look for the start
      of an object, is auxiliary: the start they should find. p is a page number. */
  datatype Pc =
    | Idle
    // xxmalloc, freelist_pop
    | PopWait(size: nat) | PopTest(size: nat) | PopHeader(size: nat) | PopCommit(size: nat) | PopDone(ptr: int)
    // xxmalloc_big
    | BigWait(size: nat) | BigMap(size: nat)
    | BigUnlock(p: int, n: nat) | BigMagic(p: int, n: nat) | BigCount(p: int, n: nat)
    // xxfree up to the start of the object
    | FreeHeader(x: int, obj: int) | WalkSize(x: int, cur: int, obj: int) | WalkCount(x: int, cur: int, obj: int)
    | WalkStart(cur: int, size: nat, obj: int)
    // the rest of xxfree: large, small
    | Unmap(start: int, size: nat)
    | FreeWait(start: int) | FreeMove(start: int) | FreeRead(start: int, newObj: int)
    | FreeLink(start: int, newObj: int, t: nat) | FreeCommit(start: int, newObj: int, t: nat) | FreeDone
    // xxmalloc_lock, xxmalloc_unlock
    | LockFirst | LockSecond | Both | UnlockSecond

  /** What an idle thread does next. */
  datatype Call = CallMalloc(size: nat) | CallFree(x: int, obj: int) | CallWrite(addr: int, b: byte) | CallLock

  datatype Sys = Sys(m: Mach, gm: Lock, gb: Lock, pcs: map<Tid, Pc>)

  /** Fault: an access to unmapped memory or past an array. Blocked: waiting for a mutex. */
  datatype Outcome = Fault | Blocked | Next(s: Sys)

  // ----- the program

  function Go(s: Sys, u: Tid, pc: Pc): Outcome {
    Next(s.(pcs := s.pcs[u := pc]))
  }

  function TakeGm(s: Sys, u: Tid, pc: Pc): Outcome {
    if s.gm.Held? then Blocked else Go(s.(gm := Held(u)), u, pc)
  }

  function TakeGb(s: Sys, u: Tid, pc: Pc): Outcome {
    if s.gb.Held? then Blocked else Go(s.(gb := Held(u)), u, pc)
  }

  function Put(s: Sys, u: Tid, x: int, d: seq<byte>, pc: Pc): Outcome {
    if Mapped(s.m.mem, x, |d|) then Go(s.(m := s.m.(mem := Store(s.m.mem, x, d))), u, pc) else Fault
  }

  /** The call begins; a write is a single step. */
  function Begin(s: Sys, u: Tid, c: Call): Outcome {
    match c
    case CallMalloc(n) => Go(s, u, if n > LARGEST_BLOCK_SIZE then BigWait(n) else PopWait(n))
    case CallFree(x, obj) =>
      Go(s, u, if x == 0 then Idle else if x >= LARGE_OBJ_VADDR_START then WalkSize(x, x, obj) else FreeHeader(x, obj))
    case CallWrite(x, b) => Put(s, u, x, [b], Idle)
    case CallLock => Go(s, u, LockFirst)
  }

  function DoPopTest(s: Sys, u: Tid, size: nat): Outcome {
    var t := BlockType(size);
    if t >= |s.m.lists| then Fault
    else
      var l := s.m.lists[t];
      if l.top == 0 then Go(s.(m := FreshMapped(s.m, t)), u, PopHeader(size))
      else if !Mapped(s.m.mem, l.top, 8) then Fault
      else Go(s.(m := s.m.(lists := s.m.lists[t := l.(top := Load(s.m.mem, l.top, 8))])), u, PopDone(l.top))
  }

  function DoPopHeader(s: Sys, u: Tid, size: nat): Outcome {
    if !Mapped(s.m.mem, s.m.highVaddr, 4) then Fault
    else Go(s.(m := s.m.(mem := StoreHeader(s.m.mem, s.m.highVaddr, BlockType(size)))), u, PopCommit(size))
  }

  function DoPopCommit(s: Sys, u: Tid, size: nat): Outcome {
    var t := BlockType(size);
    if t >= |s.m.lists| then Fault
    else
      var l := s.m.lists[t];
      Go(s.(m := s.m.(lists := s.m.lists[t := l.(highCanonical := Bump(t, l.highCanonical))],
                      highVaddr := s.m.highVaddr + PAGE_SIZE)),
         u, PopDone(s.m.highVaddr + l.highCanonical % PAGE_SIZE))
  }

  function DoBigMap(s: Sys, u: Tid, size: nat): Outcome {
    var n := (size + HEADER) % WORD / PAGE_SIZE + 1;
    var p := s.m.largeNext / PAGE_SIZE;
    Go(s.(m := s.m.(mem := Mmap(s.m.mem, p, n), largeNext := s.m.largeNext + PAGE_SIZE * n)), u, BigUnlock(p, n))
  }

  /** xxfree with the start and size of the object found. */
  function Found(start: int, size: nat): Pc {
    if start >= LARGE_OBJ_VADDR_START then Unmap(start, size) else FreeWait(start)
  }

  function DoFreeHeader(s: Sys, u: Tid, x: int): Outcome {
    if !Mapped(s.m.mem, RoundDownPage(x), 4) then Fault
    else
      var size := Pow2(Load(s.m.mem, RoundDownPage(x), 4) + MAGIC_NUMBER);
      Go(s, u, Found(if x < BYTE_ALIGNMENT then x else RoundDown(x - BYTE_ALIGNMENT, size) + BYTE_ALIGNMENT, size))
  }

  function DoWalkSize(s: Sys, u: Tid, x: int, cur: int, obj: int): Outcome {
    if !Mapped(s.m.mem, RoundDownPage(cur), 8) then Fault
    else if Load(s.m.mem, RoundDownPage(cur), 8) != LARGE_OBJ_START_MAGIC then
      Go(s, u, WalkSize(x, cur - PAGE_SIZE, obj))
    else Go(s, u, WalkCount(x, cur, obj))
  }

  function DoWalkCount(s: Sys, u: Tid, x: int, cur: int, obj: int): Outcome {
    if !Mapped(s.m.mem, RoundDownPage(cur) + 8, 8) then Fault
    else Go(s, u, WalkStart(x, (Load(s.m.mem, RoundDownPage(cur) + 8, 8) * PAGE_SIZE - 16) % WORD, obj))
  }

  function DoWalkStart(s: Sys, u: Tid, cur: int, size: nat, obj: int): Outcome {
    if !Mapped(s.m.mem, RoundDownPage(cur), 8) then Fault
    else if Load(s.m.mem, RoundDownPage(cur), 8) != LARGE_OBJ_START_MAGIC then
      Go(s, u, WalkStart(cur - PAGE_SIZE, size, obj))
    else Go(s, u, Found(RoundDownPage(cur), size))
  }

  function DoUnmap(s: Sys, u: Tid, start: int, size: nat): Outcome {
    var p, n := RoundDownPage(start) / PAGE_SIZE, RoundUp(size, PAGE_SIZE) / PAGE_SIZE;
    Go(s.(m := s.m.(mem := Munmap(s.m.mem, p, n))), u, Idle)
  }

  function DoFreeMove(s: Sys, u: Tid, start: int): Outcome {
    var v, w := RoundDownPage(start) / PAGE_SIZE, s.m.highVaddr / PAGE_SIZE;
    if v !in s.m.mem || v !in s.m.backing then Fault
    else
      Go(s.(m := s.m.(mem := Mremap(s.m.mem, v, w), backing := (s.m.backing - {v})[w := s.m.backing[v]],
                      highVaddr := s.m.highVaddr + PAGE_SIZE)),
         u, FreeRead(start, s.m.highVaddr + start % PAGE_SIZE))
  }

  function DoFreeRead(s: Sys, u: Tid, start: int, newObj: int): Outcome {
    if !Mapped(s.m.mem, RoundDownPage(newObj), 4) then Fault
    else Go(s, u, FreeLink(start, newObj, Load(s.m.mem, RoundDownPage(newObj), 4)))
  }

  function DoFreeLink(s: Sys, u: Tid, start: int, newObj: int, t: nat): Outcome {
    if t >= |s.m.lists| || s.m.lists[t].top < 0 then Fault
    else Put(s, u, newObj, Encode(s.m.lists[t].top, 8), FreeCommit(start, newObj, t))
  }

  function DoFreeCommit(s: Sys, u: Tid, newObj: int, t: nat): Outcome {
    if t >= |s.m.lists| then Fault
    else Go(s.(m := s.m.(lists := s.m.lists[t := s.m.lists[t].(top := newObj)])), u, FreeDone)
  }

  /** One step of thread u; c says what it calls if it is idle. */
  function Exec(s: Sys, u: Tid, c: Call): Outcome
    requires u in s.pcs
  {
    match s.pcs[u]
    case Idle => Begin(s, u, c)
    case PopWait(size) => TakeGm(s, u, PopTest(size))
    case PopTest(size) => DoPopTest(s, u, size)
    case PopHeader(size) => DoPopHeader(s, u, size)
    case PopCommit(size) => DoPopCommit(s, u, size)
    case PopDone(_) => Go(s.(gm := Unlocked), u, Idle)
    case BigWait(size) => TakeGb(s, u, BigMap(size))
    case BigMap(size) => DoBigMap(s, u, size)
    case BigUnlock(p, n) => Go(s.(gb := Unlocked), u, BigMagic(p, n))
    case BigMagic(p, n) => Put(s, u, p * PAGE_SIZE, Encode(LARGE_OBJ_START_MAGIC, 8), BigCount(p, n))
    case BigCount(p, n) => Put(s, u, p * PAGE_SIZE + 8, Encode(n, 8), Idle)
    case FreeHeader(x, _) => DoFreeHeader(s, u, x)
    case WalkSize(x, cur, obj) => DoWalkSize(s, u, x, cur, obj)
    case WalkCount(x, cur, obj) => DoWalkCount(s, u, x, cur, obj)
    case WalkStart(cur, size, obj) => DoWalkStart(s, u, cur, size, obj)
    case Unmap(start, size) => DoUnmap(s, u, start, size)
    case FreeWait(start) => TakeGm(s, u, FreeMove(start))
    case FreeMove(start) => DoFreeMove(s, u, start)
    case FreeRead(start, newObj) => DoFreeRead(s, u, start, newObj)
    case FreeLink(start, newObj, t) => DoFreeLink(s, u, start, newObj, t)
    case FreeCommit(_, newObj, t) => DoFreeCommit(s, u, newObj, t)
    case FreeDone => Go(s.(gm := Unlocked), u, Idle)
    case LockFirst => TakeGm(s, u, LockSecond)
    case LockSecond => TakeGb(s, u, Both)
    case Both => Go(s.(gm := Unlocked), u, UnlockSecond)
    case UnlockSecond => Go(s.(gb := Unlocked), u, Idle)
  }

  predicate HoldsGm(pc: Pc) {
    pc.PopTest? || pc.PopHeader? || pc.PopCommit? || pc.PopDone? || pc.FreeMove? || pc.FreeRead? || pc.FreeLink?
    || pc.FreeCommit? || pc.FreeDone? || pc.LockSecond? || pc.Both?
  }

  predicate HoldsGb(pc: Pc) {
    pc.BigMap? || pc.BigUnlock? || pc.Both? || pc.UnlockSecond?
  }

  // ----- objects in the hands of a thread

  predicate Building(pc: Pc) {
    pc.BigUnlock? || pc.BigMagic? || pc.BigCount?
  }

  predicate Finding(pc: Pc) {
    pc.FreeHeader? || pc.WalkSize? || pc.WalkCount? || pc.WalkStart?
  }

  predicate Freeing(pc: Pc) {
    pc.FreeWait? || pc.FreeMove? || pc.FreeRead? || pc.FreeLink? || pc.FreeCommit?
  }

  /** The thread is freeing an object or has not yet returned it. */
  predicate Owns(pc: Pc) {
    pc.PopDone? || Building(pc) || Finding(pc) || Freeing(pc) || pc.Unmap?
  }

  /** Start of the object in the hands of the thread. */
  function Custody(pc: Pc): int {
    if pc.PopDone? then pc.ptr
    else if Building(pc) then LargeAddr(pc.p)
    else if Finding(pc) then pc.obj
    else if Freeing(pc) then pc.start
    else if pc.Unmap? then LargeAddr(pc.start / PAGE_SIZE)
    else 0
  }

  // ----- auxiliary state

  datatype Event = Event(u: Tid, op: Op, result: int)

  /** a: the heap after the operations that have taken effect. pend: the large objects whose
      header is unfinished. log: those operations, each with its thread and the pointer a malloc
      obtained. */
  datatype Aux = Aux(a: Heap, pend: Pending, log: seq<Event>)

  /** op, called by u, takes effect. */
  ghost function Commit(g: Aux, u: Tid, op: Op, result: int): Aux {
    Aux(if WF(g.a) && Legal(g.a, op) then Step(g.a, op) else g.a, g.pend, g.log + [Event(u, op, result)])
  }

  /** malloc takes effect when the list head or the counters move, free when the list head moves
      or the pages are unmapped. */
  ghost function After(s: Sys, g: Aux, u: Tid, c: Call): Aux
    requires u in s.pcs
  {
    match s.pcs[u]
    case Idle => if c.CallWrite? then Commit(g, u, Op.Write(c.addr, c.b), 0) else g
    case PopTest(size) =>
      var t := BlockType(size);
      if t < |s.m.lists| && s.m.lists[t].top != 0 then Commit(g, u, Op.Malloc(size), s.m.lists[t].top) else g
    case PopCommit(size) =>
      var t := BlockType(size);
      if t >= |s.m.lists| then g
      else Commit(g, u, Op.Malloc(size), s.m.highVaddr + s.m.lists[t].highCanonical % PAGE_SIZE)
    case BigMap(size) =>
      var p := s.m.largeNext / PAGE_SIZE;
      Commit(g, u, Op.Malloc(size), LargeAddr(p)).(pend := g.pend[p := false])
    case BigMagic(p, _) => g.(pend := g.pend[p := true])
    case BigCount(p, _) => g.(pend := g.pend - {p})
    case Unmap(start, _) => Commit(g, u, Op.Free(LargeAddr(start / PAGE_SIZE)), 0)
    case FreeCommit(start, _, _) => Commit(g, u, Op.Free(start), 0)
    case _ => g
  }

  /** Nobody has the object at x in hand. */
  predicate Loose(s: Sys, x: int) {
    forall w :: w in s.pcs && Owns(s.pcs[w]) ==> Custody(s.pcs[w]) != x
  }

  /** What the client must respect, and room in the address ranges when they are taken from. */
  ghost predicate Allowed(s: Sys, g: Aux, u: Tid, c: Call)
    requires u in s.pcs && WF(g.a)
  {
    match s.pcs[u]
    case Idle => (
      match c
      case CallMalloc(n) => n < SIGN_BIT
      case CallFree(x, obj) =>
        x == 0 || (LiveByte(g.a, x) && WalkClear(g.a, x) && obj == StartOf(g.a, x) && Loose(s, obj))
      case CallWrite(x, _) => LiveByte(g.a, x) && Loose(s, StartOf(g.a, x))
      case CallLock => true)
    case PopTest(size) => Fits(g.a, Op.Malloc(size))
    case BigMap(size) => Fits(g.a, Op.Malloc(size))
    case FreeMove(_) => g.a.high < LARGE_PAGE
    case _ => true
  }

  // ----- the invariant

  function PcHole(pc: Pc): Hole {
    match pc
    case PopHeader(size) => Fresh(BlockType(size), false)
    case PopCommit(size) => Fresh(BlockType(size), true)
    case FreeRead(start, _) => Moved(start / PAGE_SIZE, false)
    case FreeLink(start, _, _) => Moved(start / PAGE_SIZE, false)
    case FreeCommit(start, _, _) => Moved(start / PAGE_SIZE, true)
    case _ => NoHole
  }

  /** What the holder of g_m is in the middle of. */
  function HoleOf(s: Sys): Hole {
    if s.gm.Held? && s.gm.owner in s.pcs then PcHole(s.pcs[s.gm.owner]) else NoHole
  }

  /** high_vaddr is one page ahead between the move of a page and the push of its object. */
  predicate HighOk(m: Mach, a: Heap, h: Hole) {
    m.highVaddr == (if h.Moved? then a.high + 1 else a.high) * PAGE_SIZE
  }

  ghost predicate Shared(s: Sys, g: Aux) {
    RepMid(s.m, g.a, HoleOf(s), g.pend) && HighOk(s.m, g.a, HoleOf(s))
  }

  /** y points into the finished large object at obj, and the walk from y ends at its first page. */
  ghost predicate OnWalk(a: Heap, pend: Pending, y: int, obj: int) {
    var p := obj / PAGE_SIZE;
    && p in a.large && obj == LargeAddr(p) && p !in pend
    && |a.large[p].data| == a.large[p].numPages * PAGE_SIZE - HEADER
    && p <= y / PAGE_SIZE < p + a.large[p].numPages
    && WalkStop(a.large[p], y / PAGE_SIZE - p) == 0
  }

  predicate FreshFits(a: Heap, t: nat) {
    t < NUM_BLOCK_TYPES == |a.stacks| == |a.page| && a.stacks[t] == [] && PopFits(a, t)
  }

  ghost predicate Moving(a: Heap, start: int, newObj: int) {
    SmallStart(a, start) && newObj == a.high * PAGE_SIZE + a.small[start / PAGE_SIZE].off && a.high < LARGE_PAGE
  }

  ghost predicate Unfinished(a: Heap, pend: Pending, p: int, n: nat, magic: bool) {
    p in a.large && a.large[p].numPages == n && p in pend && pend[p] == magic
  }

  /** What a thread may rely on between its steps. */
  ghost predicate LocalOk(a: Heap, pend: Pending, pc: Pc) {
    match pc
    case PopWait(size) => size <= LARGEST_BLOCK_SIZE
    case PopTest(size) => size <= LARGEST_BLOCK_SIZE
    case PopHeader(size) => size <= LARGEST_BLOCK_SIZE && FreshFits(a, BlockType(size))
    case PopCommit(size) => size <= LARGEST_BLOCK_SIZE && FreshFits(a, BlockType(size))
    case PopDone(ptr) => SmallStart(a, ptr)
    case BigWait(size) => LARGEST_BLOCK_SIZE < size < SIGN_BIT
    case BigMap(size) => LARGEST_BLOCK_SIZE < size < SIGN_BIT
    case BigUnlock(p, n) => Unfinished(a, pend, p, n, false)
    case BigMagic(p, n) => Unfinished(a, pend, p, n, false)
    case BigCount(p, n) => Unfinished(a, pend, p, n, true)
    case FreeHeader(x, obj) => InSmall(a, x) && obj == SmallAddr(a, x / PAGE_SIZE) && obj / PAGE_SIZE == x / PAGE_SIZE
    case WalkSize(x, cur, obj) => OnWalk(a, pend, x, obj) && OnWalk(a, pend, cur, obj)
    case WalkCount(x, cur, obj) => OnWalk(a, pend, x, obj) && cur / PAGE_SIZE == obj / PAGE_SIZE
    case WalkStart(cur, size, obj) => OnWalk(a, pend, cur, obj) && size == |a.large[obj / PAGE_SIZE].data|
    case Unmap(start, size) =>
      var p := start / PAGE_SIZE;
      p in a.large && p !in pend && start % PAGE_SIZE == 0 && size == |a.large[p].data|
    case FreeWait(start) => SmallStart(a, start)
    case FreeMove(start) => SmallStart(a, start)
    case FreeRead(start, newObj) => Moving(a, start, newObj)
    case FreeLink(start, newObj, t) => Moving(a, start, newObj) && a.small[start / PAGE_SIZE].cls == t
    case FreeCommit(start, newObj, t) => Moving(a, start, newObj) && a.small[start / PAGE_SIZE].cls == t
    case _ => true
  }

  /** A mutex is held exactly by the thread whose place says so. */
  ghost predicate LocksOk(s: Sys) {
    && (forall u :: u in s.pcs ==> (HoldsGm(s.pcs[u]) <==> s.gm == Held(u)))
    && (forall u :: u in s.pcs ==> (HoldsGb(s.pcs[u]) <==> s.gb == Held(u)))
    && (s.gm.Held? ==> s.gm.owner in s.pcs) && (s.gb.Held? ==> s.gb.owner in s.pcs)
  }

  ghost predicate Locals(s: Sys, g: Aux) {
    forall u :: u in s.pcs ==> LocalOk(g.a, g.pend, s.pcs[u])
  }

  /** No object is in the hands of two threads. */
  ghost predicate Custodies(s: Sys) {
    forall u, w :: u in s.pcs && w in s.pcs && u != w && Owns(s.pcs[u]) && Owns(s.pcs[w]) ==>
      Custody(s.pcs[u]) != Custody(s.pcs[w])
  }

  ghost predicate Builder(s: Sys, p: int, u: Tid) {
    u in s.pcs && Building(s.pcs[u]) && s.pcs[u].p == p
  }

  /** An unfinished object is in the hands of the thread that is making it. */
  ghost predicate PendHeld(s: Sys, g: Aux) {
    forall p :: p in g.pend ==> exists u :: Builder(s, p, u)
  }

  /** The log is a legal sequential run from b to a in which every malloc returned what the
      threads saw. */
  ghost predicate Explains(b: Heap, log: seq<Event>, a: Heap)
    requires WF(b)
    decreases |log|
  {
    if log == [] then a == b
    else
      var e := log[0];
      && Legal(b, e.op) && (e.op.Malloc? ==> e.result == DoMalloc(b, e.op.size).1)
      && (StepWF(b, e.op); Explains(Step(b, e.op), log[1..], a))
  }

  ghost predicate Explained(g: Aux) {
    WF(EMPTY) && Explains(EMPTY, g.log, g.a)
  }

  ghost predicate Inv(s: Sys, g: Aux) {
    Shared(s, g) && LocksOk(s) && Locals(s, g) && Custodies(s) && PendHeld(s, g) && Explained(g)
  }

  // ----- the sequential explanation

  lemma {:induction false} ExplainsSnoc(b: Heap, log: seq<Event>, a: Heap, e: Event)
    requires WF(b) && Explains(b, log, a) && WF(a) && Legal(a, e.op)
    requires e.op.Malloc? ==> e.result == DoMalloc(a, e.op.size).1
    ensures Explains(b, log + [e], Step(a, e.op))
    decreases |log|
  {
    hide WF, Legal, DoMalloc, Step;
    var log' := log + [e];
    if log == [] {
      assert log'[1..] == [];
      StepWF(a, e.op);
    } else {
      assert log'[0] == log[0] && log'[1..] == log[1..] + [e];
      StepWF(b, log[0].op);
      ExplainsSnoc(Step(b, log[0].op), log[1..], a, e);
    }
  }

  function Ops(log: seq<Event>): seq<Op>
  {
    if log == [] then [] else [log[0].op] + Ops(log[1..])
  }

  lemma {:induction false} ExplainsRun(b: Heap, log: seq<Event>, a: Heap)
    requires WF(b) && Explains(b, log, a)
    ensures LegalRun(b, Ops(log)) && Run(b, Ops(log)) == a
    decreases |log|
  {
    hide WF, Legal, DoMalloc, Step;
    if log == [] {
    } else {
      StepWF(b, log[0].op);
      ExplainsRun(Step(b, log[0].op), log[1..], a);
      assert Ops(log)[1..] == Ops(log[1..]);
    }
  }

  lemma CommitExplained(g: Aux, u: Tid, op: Op, result: int)
    requires Explained(g) && WF(g.a) && Legal(g.a, op) && (op.Malloc? ==> result == DoMalloc(g.a, op.size).1)
    ensures Explained(Commit(g, u, op, result)) && WF(Commit(g, u, op, result).a)
    ensures Commit(g, u, op, result).a == Step(g.a, op) && Commit(g, u, op, result).pend == g.pend
  {
    hide WF, Legal, DoMalloc, Step;
    ExplainsSnoc(EMPTY, g.log, g.a, Event(u, op, result));
    StepWF(g.a, op);
  }

  // ----- what other threads rely on is kept

  /** The object at page q is the same in both heaps. */
  ghost predicate Keeps(g: Aux, g': Aux, q: int) {
    && (q in g.a.small ==> q in g'.a.small && g'.a.small[q] == g.a.small[q])
    && (q in g.a.large ==> q in g'.a.large && g'.a.large[q] == g.a.large[q])
    && (q in g.pend <==> q in g'.pend) && (q in g.pend ==> g'.pend[q] == g.pend[q])
  }

  ghost predicate SameLists(a: Heap, a': Heap) {
    a'.stacks == a.stacks && a'.page == a.page && a'.high == a.high
  }

  ghost predicate Undisturbed(g: Aux, g': Aux, pc: Pc) {
    (Owns(pc) ==> Keeps(g, g', Custody(pc) / PAGE_SIZE)) && (HoldsGm(pc) ==> SameLists(g.a, g'.a))
  }

  lemma LocalFrame(g: Aux, g': Aux, pc: Pc)
    requires LocalOk(g.a, g.pend, pc) && Undisturbed(g, g', pc)
    ensures LocalOk(g'.a, g'.pend, pc)
  {
  }

  /** The object in a thread's hands is live. */
  lemma OwnedIsLive(g: Aux, pc: Pc)
    requires WF(g.a) && LocalOk(g.a, g.pend, pc) && Owns(pc)
    ensures SmallStart(g.a, Custody(pc)) || LargeStart(g.a, Custody(pc))
  {
    if Building(pc) || pc.Unmap? { PageOffset(Custody(pc) / PAGE_SIZE, HEADER); }
  }
}
