/** The invariant of the threads, step by step. */
module ThreadSteps {
  import opened Arith
  import opened Memory
  import opened SizeClass
  import opened Heap
  import opened Runs
  import opened Layout
  import opened Machine
  import opened Nuaf
  import opened Threads
  import opened ThreadSafety

  ghost predicate LocksMove(s: Sys, u: Tid, s': Sys)
    requires u in s'.pcs
  {
    && (s'.gm == s.gm || s.gm == Unlocked || s.gm == Held(u))
    && (s'.gb == s.gb || s.gb == Unlocked || s.gb == Held(u))
    && (HoldsGm(s'.pcs[u]) <==> s'.gm == Held(u)) && (HoldsGb(s'.pcs[u]) <==> s'.gb == Held(u))
    && (s'.gm == s.gm || s'.gm == Unlocked || s'.gm == Held(u))
    && (s'.gb == s.gb || s'.gb == Unlocked || s'.gb == Held(u))
  }

  ghost predicate StillHeld(s: Sys, u: Tid, s': Sys)
    requires u in s.pcs && u in s'.pcs
  {
    && (Building(s.pcs[u]) ==> Building(s'.pcs[u]) && s'.pcs[u].p == s.pcs[u].p)
    && (Owns(s'.pcs[u]) ==> Owns(s.pcs[u]) && Custody(s'.pcs[u]) == Custody(s.pcs[u]))
  }

  lemma HoleStays(s: Sys, u: Tid, s': Sys)
    requires LocksOk(s) && OneMoved(s, u, s') && LocksMove(s, u, s')
    requires PcHole(s'.pcs[u]) == PcHole(s.pcs[u]) && (s'.gm == s.gm || PcHole(s.pcs[u]) == NoHole)
    ensures HoleOf(s') == HoleOf(s)
  {
    hide HoldsGm, HoldsGb, PcHole;
  }

  lemma KeepsClaim(s: Sys, u: Tid, s': Sys)
    requires Custodies(s) && u in s.pcs && u in s'.pcs && StillHeld(s, u, s')
    ensures Unclaimed(s, u, s'.pcs[u])
  {
    hide Owns, Custody, Building;
  }

  /** A step that changes neither memory nor the auxiliary state. */
  ghost predicate Plain(s: Sys, g: Aux, u: Tid, s': Sys) {
    && OneMoved(s, u, s') && s'.m == s.m && LocksMove(s, u, s')
    && PcHole(s'.pcs[u]) == PcHole(s.pcs[u]) && (s'.gm == s.gm || PcHole(s.pcs[u]) == NoHole)
    && LocalOk(g.a, g.pend, s'.pcs[u])
  }

  lemma PlainInv(s: Sys, g: Aux, u: Tid, s': Sys)
    requires Inv(s, g) && Plain(s, g, u, s') && Unclaimed(s, u, s'.pcs[u])
    requires Building(s.pcs[u]) ==> Building(s'.pcs[u]) && s'.pcs[u].p == s.pcs[u].p
    ensures Inv(s', g) && OthersUndisturbed(s, g, u, g)
  {
    hide LocalOk, Explained, Custody, Owns, PcHole, HoldsGm, HoldsGb, RepMid, HighOk, HoleOf, Unclaimed;
    HoleStays(s, u, s');
    LocksTaken(s, u, s');
    Quiet(s, g, u, s');
  }

  /** A plain step with the same object in hand. */
  lemma PlainSafe(s: Sys, g: Aux, u: Tid, c: Call)
    requires u in s.pcs && Inv(s, g) && After(s, g, u, c) == g
    requires var r := Exec(s, u, c); r.Next? && Plain(s, g, u, r.s) && StillHeld(s, u, r.s)
    ensures Safe(s, g, u, c)
  {
    hide Exec, After, LocalOk, Explained, Owns, Custody, PcHole, HoldsGm, HoldsGb, RepMid, Shared, LocksMove;
    var r := Exec(s, u, c);
    KeepsClaim(s, u, r.s);
    PlainInv(s, g, u, r.s);
  }

  /** What a thread knows about itself. */
  lemma Mine(s: Sys, g: Aux, u: Tid)
    requires Inv(s, g) && u in s.pcs
    ensures WF(g.a) && LocalOk(g.a, g.pend, s.pcs[u])
    ensures Shared(s, g) && LocksOk(s) && Locals(s, g) && Custodies(s) && PendHeld(s, g)
  {
    hide LocalOk, LocksOk, Custodies, PendHeld, Explained, Shows, Placed, Tops, Bumps, Backs, Shape, Bijection,
      Stacks, Larges;
  }

  // ----- mutexes

  predicate Locking(pc: Pc) {
    pc.PopWait? || pc.PopDone? || pc.BigWait? || pc.BigUnlock? || pc.FreeWait? || pc.FreeDone?
    || pc.LockFirst? || pc.LockSecond? || pc.Both? || pc.UnlockSecond?
  }

  /** Taking or releasing a mutex. */
  lemma LockStep(s: Sys, g: Aux, u: Tid, c: Call)
    requires Ready(s, g, u, c) && Locking(s.pcs[u])
    ensures Safe(s, g, u, c)
  {
    hide Ready, Inv, Safe, Exec, After, Explained, WF, Plain, StillHeld, LocalOk, Shared, LocksOk, Locals,
      Custodies, PendHeld, Locking;
    ReadyParts(s, g, u, c);
    Mine(s, g, u);
    LockMove(s, g, u, c);
    if Exec(s, u, c).Next? { PlainSafe(s, g, u, c); } else { BlockedSafe(s, g, u, c); }
  }

  lemma ReadyParts(s: Sys, g: Aux, u: Tid, c: Call)
    requires Ready(s, g, u, c)
    ensures u in s.pcs && Inv(s, g) && WF(g.a) && Allowed(s, g, u, c)
  {
    hide Inv, WF, Allowed;
  }

  lemma BlockedSafe(s: Sys, g: Aux, u: Tid, c: Call)
    requires u in s.pcs && Exec(s, u, c).Blocked?
    ensures Safe(s, g, u, c)
  {
    hide Exec, After, Inv;
  }

  /** A step that only moves the thread on. */
  lemma Going(s: Sys, g: Aux, u: Tid, pc: Pc)
    requires u in s.pcs && LocksOk(s) && LocalOk(g.a, g.pend, pc)
    requires HoldsGm(pc) == HoldsGm(s.pcs[u]) && HoldsGb(pc) == HoldsGb(s.pcs[u]) && PcHole(pc) == PcHole(s.pcs[u])
    ensures Plain(s, g, u, Go(s, u, pc).s)
  {
    hide LocalOk, HoldsGm, HoldsGb, PcHole;
  }

  lemma TakingGm(s: Sys, g: Aux, u: Tid, pc: Pc)
    requires u in s.pcs && LocksOk(s) && LocalOk(g.a, g.pend, pc) && !HoldsGm(s.pcs[u]) && HoldsGm(pc)
    requires HoldsGb(pc) == HoldsGb(s.pcs[u]) && PcHole(pc) == PcHole(s.pcs[u]) == NoHole
    ensures var r := TakeGm(s, u, pc); r.Next? ==> Plain(s, g, u, r.s) && r.s.pcs[u] == pc
  {
    hide LocalOk, HoldsGm, HoldsGb, PcHole;
  }

  lemma TakingGb(s: Sys, g: Aux, u: Tid, pc: Pc)
    requires u in s.pcs && LocksOk(s) && LocalOk(g.a, g.pend, pc) && !HoldsGb(s.pcs[u]) && HoldsGb(pc)
    requires HoldsGm(pc) == HoldsGm(s.pcs[u]) && PcHole(pc) == PcHole(s.pcs[u])
    ensures var r := TakeGb(s, u, pc); r.Next? ==> Plain(s, g, u, r.s) && r.s.pcs[u] == pc
  {
    hide LocalOk, HoldsGm, HoldsGb, PcHole;
  }

  lemma LeavingGm(s: Sys, g: Aux, u: Tid, pc: Pc)
    requires u in s.pcs && LocksOk(s) && LocalOk(g.a, g.pend, pc) && HoldsGm(s.pcs[u]) && !HoldsGm(pc)
    requires HoldsGb(pc) == HoldsGb(s.pcs[u]) && PcHole(pc) == PcHole(s.pcs[u]) == NoHole
    ensures Plain(s, g, u, Go(s.(gm := Unlocked), u, pc).s)
  {
    hide LocalOk, HoldsGm, HoldsGb, PcHole;
  }

  lemma LeavingGb(s: Sys, g: Aux, u: Tid, pc: Pc)
    requires u in s.pcs && LocksOk(s) && LocalOk(g.a, g.pend, pc) && HoldsGb(s.pcs[u]) && !HoldsGb(pc)
    requires HoldsGm(pc) == HoldsGm(s.pcs[u]) && PcHole(pc) == PcHole(s.pcs[u])
    ensures Plain(s, g, u, Go(s.(gb := Unlocked), u, pc).s)
  {
    hide LocalOk, HoldsGm, HoldsGb, PcHole;
  }

  lemma LockMove(s: Sys, g: Aux, u: Tid, c: Call)
    requires u in s.pcs && LocksOk(s) && LocalOk(g.a, g.pend, s.pcs[u]) && Locking(s.pcs[u])
    ensures After(s, g, u, c) == g
    ensures var r := Exec(s, u, c); !r.Fault? && (r.Next? ==> Plain(s, g, u, r.s) && StillHeld(s, u, r.s))
  {
    hide LocksOk, LocalOk, Plain, StillHeld, Exec, After;
    if s.pcs[u].PopWait? || s.pcs[u].FreeWait? || s.pcs[u].LockFirst? {
      TakeGmMove(s, g, u, c);
    } else if s.pcs[u].PopDone? || s.pcs[u].FreeDone? || s.pcs[u].Both? {
      LeaveGmMove(s, g, u, c);
    } else {
      GbMove(s, g, u, c);
    }
  }

  lemma TakeGmMove(s: Sys, g: Aux, u: Tid, c: Call)
    requires u in s.pcs && LocksOk(s) && LocalOk(g.a, g.pend, s.pcs[u])
    requires s.pcs[u].PopWait? || s.pcs[u].FreeWait? || s.pcs[u].LockFirst?
    ensures After(s, g, u, c) == g
    ensures var r := Exec(s, u, c); !r.Fault? && (r.Next? ==> Plain(s, g, u, r.s) && StillHeld(s, u, r.s))
  {
    hide LocksOk, SmallStart, Plain;
    match s.pcs[u]
    case PopWait(size) => TakingGm(s, g, u, PopTest(size));
    case FreeWait(start) => TakingGm(s, g, u, FreeMove(start));
    case LockFirst => TakingGm(s, g, u, LockSecond);
  }

  lemma LeaveGmMove(s: Sys, g: Aux, u: Tid, c: Call)
    requires u in s.pcs && LocksOk(s) && LocalOk(g.a, g.pend, s.pcs[u])
    requires s.pcs[u].PopDone? || s.pcs[u].FreeDone? || s.pcs[u].Both?
    ensures After(s, g, u, c) == g
    ensures var r := Exec(s, u, c); r.Next? && Plain(s, g, u, r.s) && StillHeld(s, u, r.s)
  {
    hide LocksOk, SmallStart, Plain;
    match s.pcs[u]
    case PopDone(_) => LeavingGm(s, g, u, Idle);
    case FreeDone => LeavingGm(s, g, u, Idle);
    case Both => LeavingGm(s, g, u, UnlockSecond);
  }

  lemma GbMove(s: Sys, g: Aux, u: Tid, c: Call)
    requires u in s.pcs && LocksOk(s) && LocalOk(g.a, g.pend, s.pcs[u])
    requires s.pcs[u].BigWait? || s.pcs[u].BigUnlock? || s.pcs[u].LockSecond? || s.pcs[u].UnlockSecond?
    ensures After(s, g, u, c) == g
    ensures var r := Exec(s, u, c); !r.Fault? && (r.Next? ==> Plain(s, g, u, r.s) && StillHeld(s, u, r.s))
  {
    hide LocksOk, Unfinished, Plain;
    match s.pcs[u]
    case BigWait(size) => TakingGb(s, g, u, BigMap(size));
    case BigUnlock(p, n) => LeavingGb(s, g, u, BigMagic(p, n));
    case LockSecond => TakingGb(s, g, u, Both);
    case UnlockSecond => LeavingGb(s, g, u, Idle);
  }

  // ----- the beginning of a call

  lemma BeginStep(s: Sys, g: Aux, u: Tid, c: Call)
    requires Ready(s, g, u, c) && s.pcs[u].Idle? && !c.CallWrite?
    ensures Safe(s, g, u, c)
  {
    hide Ready, Inv, Explained, WF, Plain, LocalOk, Shared, LocksOk, Locals, Custodies, PendHeld, Unclaimed;
    ReadyParts(s, g, u, c);
    Mine(s, g, u);
    BeginMove(s, g, u, c);
    PlainInv(s, g, u, Exec(s, u, c).s);
  }

  lemma BeginMove(s: Sys, g: Aux, u: Tid, c: Call)
    requires u in s.pcs && LocksOk(s) && PendHeld(s, g) && WF(g.a) && Allowed(s, g, u, c)
    requires s.pcs[u].Idle? && !c.CallWrite?
    ensures After(s, g, u, c) == g
    ensures var r := Exec(s, u, c); r.Next? && Plain(s, g, u, r.s) && Unclaimed(s, u, r.s.pcs[u])
  {
    hide LocksOk, WF, OnWalk, WalkClear, InSmall, InLarge, Plain, PendHeld;
    if c.CallFree? && c.x != 0 { FindingStarts(s, g, c.x, c.obj); }
    Going(s, g, u, Exec(s, u, c).s.pcs[u]);
  }

  /** A pointer the client may free leads into a finished object. */
  lemma FindingStarts(s: Sys, g: Aux, x: int, obj: int)
    requires PendHeld(s, g) && WF(g.a) && LiveByte(g.a, x) && WalkClear(g.a, x)
    requires obj == StartOf(g.a, x) && Loose(s, obj)
    ensures x >= LARGE_OBJ_VADDR_START ==> LocalOk(g.a, g.pend, WalkSize(x, x, obj))
    ensures x < LARGE_OBJ_VADDR_START ==> LocalOk(g.a, g.pend, FreeHeader(x, obj))
    ensures x > 0
  {
    AboveLarge(g.a, x);
    StartPage(g.a, x);
    if x >= LARGE_OBJ_VADDR_START {
      LiveLarge(g.a, x);
      Finished(s, g, obj);
    }
  }

  lemma Finished(s: Sys, g: Aux, obj: int)
    requires PendHeld(s, g) && Loose(s, obj) && obj == LargeAddr(obj / PAGE_SIZE)
    ensures obj / PAGE_SIZE !in g.pend
  {
    forall w ensures !Builder(s, obj / PAGE_SIZE, w) { }
  }

  // ----- xxfree looks for the start

  /** The object being moved by the holder of g_m is nobody else's. */
  lemma HoleApart(s: Sys, g: Aux, x: int)
    requires LocksOk(s) && Locals(s, g) && WF(g.a) && (SmallStart(g.a, x) || LargeStart(g.a, x))
    requires forall w :: w in s.pcs && HoldsGm(s.pcs[w]) && Owns(s.pcs[w]) ==> Custody(s.pcs[w]) != x
    ensures HoleOf(s).Moved? ==> HoleOf(s).v != x / PAGE_SIZE
  {
    if HoleOf(s).Moved? {
      var w := s.gm.owner;
      HoleIs(s, w);
      assert LocalOk(g.a, g.pend, s.pcs[w]) && Owns(s.pcs[w]);
      ApartPages(g.a, x, Custody(s.pcs[w]));
    }
  }

  /** The header of a small object nobody is moving. */
  lemma ReadHeader(s: Sys, g: Aux, x: int)
    requires Shared(s, g) && InSmall(g.a, x)
    requires HoleOf(s).Moved? ==> HoleOf(s).v != x / PAGE_SIZE
    ensures Mapped(s.m.mem, RoundDownPage(x), 4)
    ensures Load(s.m.mem, RoundDownPage(x), 4) == g.a.small[x / PAGE_SIZE].cls
    ensures PlacedObj(g.a.small[x / PAGE_SIZE])
  {
    hide Tops, Bumps, Backs, Bigs, Keys;
    var v := x / PAGE_SIZE;
    PageParts(x);
    assert SmallOk(g.a, v);
    HeaderRead(s.m.mem, g.a, HoleOf(s), v);
  }

  lemma FreeHeaderStep(s: Sys, g: Aux, u: Tid, c: Call)
    requires Ready(s, g, u, c) && s.pcs[u].FreeHeader?
    ensures Safe(s, g, u, c)
  {
    hide Ready, Inv, Safe, Exec, After, Explained, WF, Plain, StillHeld, LocalOk, Shared, LocksOk, Locals,
      Custodies, PendHeld;
    ReadyParts(s, g, u, c);
    Mine(s, g, u);
    FreeHeaderMove(s, g, u, c);
    PlainSafe(s, g, u, c);
  }

  lemma FreeHeaderMove(s: Sys, g: Aux, u: Tid, c: Call)
    requires u in s.pcs && LocksOk(s) && Locals(s, g) && Custodies(s) && Shared(s, g) && WF(g.a) && s.pcs[u].FreeHeader?
    ensures After(s, g, u, c) == g
    ensures var r := Exec(s, u, c); r.Next? && Plain(s, g, u, r.s) && StillHeld(s, u, r.s)
  {
    hide WF, Mapped, Load, Placed, HoleOf, Shared, Locals, PlacedObj, LocksOk, Plain;
    MyHeader(s, g, u);
    HeaderExec(s, u, c, StartOf(g.a, s.pcs[u].x));
    Going(s, g, u, FreeWait(s.pcs[u].obj));
  }

  lemma HeaderExec(s: Sys, u: Tid, c: Call, start: int)
    requires u in s.pcs && s.pcs[u].FreeHeader? && Mapped(s.m.mem, RoundDownPage(s.pcs[u].x), 4)
    requires var x, size := s.pcs[u].x, Pow2(Load(s.m.mem, RoundDownPage(s.pcs[u].x), 4) + MAGIC_NUMBER);
      x >= BYTE_ALIGNMENT && RoundDown(x - BYTE_ALIGNMENT, size) + BYTE_ALIGNMENT == start < LARGE_OBJ_VADDR_START
    ensures Exec(s, u, c) == Go(s, u, FreeWait(start))
  {
    hide Mapped, Load, RoundDown, RoundDownPage;
  }

  /** xxfree reads the class of its object outside the lock and finds the object's start. */
  lemma MyHeader(s: Sys, g: Aux, u: Tid)
    requires u in s.pcs && LocksOk(s) && Locals(s, g) && Custodies(s) && Shared(s, g) && WF(g.a) && s.pcs[u].FreeHeader?
    ensures var x, obj := s.pcs[u].x, s.pcs[u].obj;
      && Mapped(s.m.mem, RoundDownPage(x), 4) && SmallStart(g.a, obj) && obj < LARGE_OBJ_VADDR_START
      && x >= BYTE_ALIGNMENT && InSmall(g.a, x) && obj == StartOf(g.a, x)
      && obj == RoundDown(x - BYTE_ALIGNMENT, Pow2(Load(s.m.mem, RoundDownPage(x), 4) + MAGIC_NUMBER)) + BYTE_ALIGNMENT
  {
    hide WF, Mapped, Load, Placed, HoleOf, Shared, RoundDown, RoundDownPage, LocksOk;
    var x, obj := s.pcs[u].x, s.pcs[u].obj;
    assert LocalOk(g.a, g.pend, s.pcs[u]);
    HoleApart(s, g, obj);
    ReadHeader(s, g, x);
    SmallStartRound(g.a, x);
    RangesApart(g.a, x / PAGE_SIZE);
    AboveLarge(g.a, x);
  }

  /** One look of a walk: it is inside its own finished object, and stops exactly at the start. */
  lemma WalkLook(s: Sys, g: Aux, y: int, obj: int)
    requires Shared(s, g) && OnWalk(g.a, g.pend, y, obj)
    ensures Mapped(s.m.mem, RoundDownPage(y), 8)
    ensures Load(s.m.mem, RoundDownPage(y), 8) == LARGE_OBJ_START_MAGIC <==> y / PAGE_SIZE == obj / PAGE_SIZE
    ensures y / PAGE_SIZE != obj / PAGE_SIZE ==> OnWalk(g.a, g.pend, y - PAGE_SIZE, obj)
  {
    hide Tops, Bumps, Backs, Smalls, Bigs, Keys;
    var a, q, p := g.a, y / PAGE_SIZE, obj / PAGE_SIZE;
    PageParts(y);
    WFSolid(a);
    assert LargeOk(a, p);
    MagicRead(s.m.mem, a, HoleOf(s), g.pend, q);
  }

  lemma WalkStep(s: Sys, g: Aux, u: Tid, c: Call)
    requires Ready(s, g, u, c) && (s.pcs[u].WalkSize? || s.pcs[u].WalkCount? || s.pcs[u].WalkStart?)
    ensures Safe(s, g, u, c)
  {
    hide Ready, Inv, Safe, Exec, After, Explained, WF, Plain, StillHeld, LocalOk, Shared, LocksOk, Locals,
      Custodies, PendHeld;
    ReadyParts(s, g, u, c);
    Mine(s, g, u);
    if s.pcs[u].WalkSize? { WalkSizeMove(s, g, u, c); }
    else if s.pcs[u].WalkCount? { WalkCountMove(s, g, u, c); }
    else { WalkStartMove(s, g, u, c); }
    PlainSafe(s, g, u, c);
  }

  lemma WalkSizeMove(s: Sys, g: Aux, u: Tid, c: Call)
    requires u in s.pcs && LocksOk(s) && LocalOk(g.a, g.pend, s.pcs[u]) && Shared(s, g) && s.pcs[u].WalkSize?
    ensures After(s, g, u, c) == g
    ensures var r := Exec(s, u, c); r.Next? && Plain(s, g, u, r.s) && StillHeld(s, u, r.s)
  {
    hide Mapped, Load, OnWalk, HoleOf, Shared, RoundDownPage, LocksOk, Plain;
    WalkLook(s, g, s.pcs[u].cur, s.pcs[u].obj);
    Going(s, g, u, Exec(s, u, c).s.pcs[u]);
  }

  lemma WalkCountMove(s: Sys, g: Aux, u: Tid, c: Call)
    requires u in s.pcs && LocksOk(s) && LocalOk(g.a, g.pend, s.pcs[u]) && Shared(s, g) && s.pcs[u].WalkCount?
    ensures After(s, g, u, c) == g
    ensures var r := Exec(s, u, c); r.Next? && Plain(s, g, u, r.s) && StillHeld(s, u, r.s)
  {
    hide Mapped, Load, HoleOf, Shared, RoundDownPage, LocksOk, Plain;
    PageParts(s.pcs[u].cur);
    CountLook(s, g, s.pcs[u].obj / PAGE_SIZE);
    Going(s, g, u, Exec(s, u, c).s.pcs[u]);
  }

  lemma CountLook(s: Sys, g: Aux, p: int)
    requires Shared(s, g) && p in g.a.large && p !in g.pend
    ensures Mapped(s.m.mem, p * PAGE_SIZE + 8, 8)
    ensures (Load(s.m.mem, p * PAGE_SIZE + 8, 8) * PAGE_SIZE - HEADER) % WORD == |g.a.large[p].data|
  {
    hide Tops, Bumps, Backs, Smalls, Bigs, Keys;
    WFSolid(g.a);
    CountRead(s.m.mem, g.a, HoleOf(s), g.pend, p);
    LargeFits(g.a, p);
  }

  lemma WalkStartMove(s: Sys, g: Aux, u: Tid, c: Call)
    requires u in s.pcs && LocksOk(s) && LocalOk(g.a, g.pend, s.pcs[u])
    requires Shared(s, g) && WF(g.a) && s.pcs[u].WalkStart?
    ensures After(s, g, u, c) == g
    ensures var r := Exec(s, u, c); r.Next? && Plain(s, g, u, r.s) && StillHeld(s, u, r.s)
  {
    hide WF, Mapped, Load, HoleOf, Shared, RoundDownPage, LocksOk, Plain;
    var cur, obj := s.pcs[u].cur, s.pcs[u].obj;
    WalkLook(s, g, cur, obj);
    PageParts(cur);
    PageOffset(cur / PAGE_SIZE, 0);
    RangesApart(g.a, obj / PAGE_SIZE);
    Going(s, g, u, Exec(s, u, c).s.pcs[u]);
  }

  /** While a thread looks for the start of its object, it has that object in hand. */
  lemma HandsSame(s: Sys, g: Aux, u: Tid, c: Call)
    requires Inv(s, g) && u in s.pcs && Finding(s.pcs[u])
    ensures var r := Exec(s, u, c); r.Next? && u in r.s.pcs && StillHeld(s, u, r.s)
  {
    hide Inv, Exec, After, WF, Plain, StillHeld, LocalOk, Shared, LocksOk, Locals, Custodies, PendHeld;
    Mine(s, g, u);
    if s.pcs[u].WalkSize? {
      WalkSizeMove(s, g, u, c);
    } else if s.pcs[u].WalkCount? {
      WalkCountMove(s, g, u, c);
    } else if s.pcs[u].WalkStart? {
      WalkStartMove(s, g, u, c);
    } else {
      FreeHeaderMove(s, g, u, c);
    }
    assert OneMoved(s, u, Exec(s, u, c).s) by { PlainMoved(s, g, u, Exec(s, u, c).s); }
  }

  lemma PlainMoved(s: Sys, g: Aux, u: Tid, s': Sys)
    requires Plain(s, g, u, s')
    ensures OneMoved(s, u, s')
  {
  }
}
