/** Every step of every thread keeps the invariant and touches only mapped memory. */
module ThreadSafety {
  import opened Memory
  import opened SizeClass
  import opened Heap
  import opened Runs
  import opened Safety
  import opened Layout
  import opened Nuaf
  import opened Threads

  ghost predicate Ready(s: Sys, g: Aux, u: Tid, c: Call) {
    u in s.pcs && Inv(s, g) && WF(g.a) && Allowed(s, g, u, c)
  }

  /** What the other threads rely on is as it was. */
  ghost predicate OthersUndisturbed(s: Sys, g: Aux, u: Tid, g': Aux) {
    forall w :: w in s.pcs && w != u ==> Undisturbed(g, g', s.pcs[w])
  }

  /** No access faults, the invariant holds again, and nobody else is disturbed. */
  ghost predicate Safe(s: Sys, g: Aux, u: Tid, c: Call)
    requires u in s.pcs
  {
    var r := Exec(s, u, c);
    !r.Fault? && (r.Next? ==> Inv(r.s, After(s, g, u, c)) && OthersUndisturbed(s, g, u, After(s, g, u, c)))
  }

  // ----- putting an invariant together

  ghost predicate OneMoved(s: Sys, u: Tid, s': Sys) {
    u in s.pcs && u in s'.pcs && s'.pcs == s.pcs[u := s'.pcs[u]]
  }

  /** What u takes into its hands nobody else has. */
  ghost predicate Unclaimed(s: Sys, u: Tid, pc: Pc) {
    Owns(pc) ==> forall w :: w in s.pcs && w != u && Owns(s.pcs[w]) ==> Custody(s.pcs[w]) != Custody(pc)
  }

  lemma Assemble(s: Sys, g: Aux, u: Tid, s': Sys, g': Aux)
    requires Locals(s, g) && Custodies(s) && OneMoved(s, u, s')
    requires Shared(s', g') && LocksOk(s') && PendHeld(s', g') && Explained(g')
    requires LocalOk(g'.a, g'.pend, s'.pcs[u]) && Unclaimed(s, u, s'.pcs[u]) && OthersUndisturbed(s, g, u, g')
    ensures Inv(s', g')
  {
    hide Shared, LocalOk, LocksOk, Explained, PendHeld, Undisturbed, Custody, Owns;
    forall w | w in s'.pcs ensures LocalOk(g'.a, g'.pend, s'.pcs[w]) {
      if w != u { LocalFrame(g, g', s.pcs[w]); }
    }
  }

  /** A step that has no effect on the auxiliary state. */
  lemma Quiet(s: Sys, g: Aux, u: Tid, s': Sys)
    requires Inv(s, g) && OneMoved(s, u, s') && Shared(s', g) && LocksOk(s')
    requires LocalOk(g.a, g.pend, s'.pcs[u]) && Unclaimed(s, u, s'.pcs[u])
    requires Building(s.pcs[u]) ==> Building(s'.pcs[u]) && s'.pcs[u].p == s.pcs[u].p
    ensures Inv(s', g) && OthersUndisturbed(s, g, u, g)
  {
    hide Shared, LocalOk, LocksOk, Explained, Custody;
    PendFrame(s, g, u, s', g);
    Assemble(s, g, u, s', g);
  }

  lemma PendFrame(s: Sys, g: Aux, u: Tid, s': Sys, g': Aux)
    requires PendHeld(s, g) && OneMoved(s, u, s')
    requires forall p :: p in g'.pend && p !in g.pend ==> Builder(s', p, u)
    requires Building(s.pcs[u]) && s.pcs[u].p in g'.pend ==> Building(s'.pcs[u]) && s'.pcs[u].p == s.pcs[u].p
    ensures PendHeld(s', g')
  {
    forall p | p in g'.pend ensures exists w :: Builder(s', p, w) {
      if p in g.pend {
        var w :| Builder(s, p, w);
        assert Builder(s', p, w);
      }
    }
  }

  /** A step under no mutex, or that only keeps one, leaves the locks as they were. */
  lemma LocksSame(s: Sys, u: Tid, s': Sys)
    requires LocksOk(s) && OneMoved(s, u, s') && s'.gm == s.gm && s'.gb == s.gb
    requires HoldsGm(s'.pcs[u]) == HoldsGm(s.pcs[u]) && HoldsGb(s'.pcs[u]) == HoldsGb(s.pcs[u])
    ensures LocksOk(s')
  {
    hide HoldsGm, HoldsGb;
  }

  lemma LocksTaken(s: Sys, u: Tid, s': Sys)
    requires LocksOk(s) && OneMoved(s, u, s')
    requires s'.gm == s.gm || s.gm == Unlocked || s.gm == Held(u)
    requires s'.gb == s.gb || s.gb == Unlocked || s.gb == Held(u)
    requires HoldsGm(s'.pcs[u]) <==> s'.gm == Held(u)
    requires HoldsGb(s'.pcs[u]) <==> s'.gb == Held(u)
    requires s'.gm == s.gm || s'.gm == Unlocked || s'.gm == Held(u)
    requires s'.gb == s.gb || s'.gb == Unlocked || s'.gb == Held(u)
    ensures LocksOk(s')
  {
    hide HoldsGm, HoldsGb;
    forall w | w in s'.pcs ensures HoldsGm(s'.pcs[w]) <==> s'.gm == Held(w) { assert w in s.pcs; }
    forall w | w in s'.pcs ensures HoldsGb(s'.pcs[w]) <==> s'.gb == Held(w) { assert w in s.pcs; }
  }

  /** The hole is the holder's. */
  lemma HoleIs(s: Sys, u: Tid)
    requires LocksOk(s) && u in s.pcs
    ensures HoldsGm(s.pcs[u]) ==> HoleOf(s) == PcHole(s.pcs[u])
    ensures !HoldsGm(s.pcs[u]) ==> PcHole(s.pcs[u]) == NoHole
    ensures !s.gm.Held? ==> HoleOf(s) == NoHole
  {
  }

  // ----- what an operation leaves alone

  lemma ApartPages(a: Heap, x: int, y: int)
    requires WF(a) && x != y && (SmallStart(a, x) || LargeStart(a, x)) && (SmallStart(a, y) || LargeStart(a, y))
    ensures x / PAGE_SIZE != y / PAGE_SIZE
  {
    RangesApart(a, x / PAGE_SIZE);
  }

  predicate SamePend(g: Aux, g': Aux, q: int) {
    (q in g.pend <==> q in g'.pend) && (q in g.pend ==> g'.pend[q] == g.pend[q])
  }

  /** The object an operation works on, if it works on one. */
  ghost predicate WorksOn(a: Heap, op: Op, x: int) {
    match op
    case Malloc(_) => false
    case Free(y) => LiveByte(a, y) && y != 0 && x == StartOf(a, y)
    case Write(y, _) => LiveByte(a, y) && x == StartOf(a, y)
  }

  lemma WorksOnLive(a: Heap, op: Op, x: int)
    requires WF(a) && WorksOn(a, op, x)
    ensures SmallStart(a, x) || LargeStart(a, x)
  {
    var y := match op case Malloc(_) => 0 case Free(y) => y case Write(y, _) => y;
    LiveByteInBlock(a, y);
    InStarts(a, x);
  }

  lemma StepKeeps(g: Aux, g': Aux, op: Op, y: int)
    requires WF(g.a) && Legal(g.a, op) && g'.a == Step(g.a, op)
    requires SmallStart(g.a, y) || LargeStart(g.a, y)
    requires SamePend(g, g', y / PAGE_SIZE) && !WorksOn(g.a, op, y)
    ensures Keeps(g, g', y / PAGE_SIZE)
  {
    var a := g.a;
    RangesApart(a, y / PAGE_SIZE);
    match op
    case Malloc(n) => MallocKeeps(a, n, y / PAGE_SIZE);
    case Free(x) =>
      if x != 0 {
        WorksOnLive(a, op, StartOf(a, x));
        ApartPages(a, StartOf(a, x), y);
        FreeKeeps(a, x, y / PAGE_SIZE);
      }
    case Write(x, b) =>
      WorksOnLive(a, op, StartOf(a, x));
      ApartPages(a, StartOf(a, x), y);
      WriteKeeps(a, x, b, y / PAGE_SIZE);
  }

  lemma MallocKeeps(a: Heap, n: nat, q: int)
    requires WF(a) && Legal(a, Op.Malloc(n)) && (q in a.small ==> a.small[q].live) && q < a.largeHigh
    requires q in a.small ==> q < a.high
    ensures var a' := DoMalloc(a, n).0;
      && (q in a.small ==> q in a'.small && a'.small[q] == a.small[q])
      && (q in a.large ==> q in a'.large && a'.large[q] == a.large[q])
  {
    if n <= LARGEST_BLOCK_SIZE {
      BlockTypeIsLeast(n);
      PopWF(a, BlockType(n));
    }
  }

  lemma StartPage(a: Heap, x: int)
    requires WF(a) && LiveByte(a, x)
    ensures StartOf(a, x) / PAGE_SIZE == if InSmall(a, x) then x / PAGE_SIZE else a.lpage[x / PAGE_SIZE]
  {
    var v := x / PAGE_SIZE;
    if InSmall(a, x) {
      assert SmallOk(a, v);
      PageOffset(v, a.small[v].off);
    } else {
      PageOffset(a.lpage[v], HEADER);
    }
  }

  lemma FreeKeeps(a: Heap, x: int, q: int)
    requires WF(a) && LiveByte(a, x) && q != StartOf(a, x) / PAGE_SIZE && (q in a.small ==> q < a.high)
    ensures var a' := DoFree(a, x);
      && (q in a.small ==> q in a'.small && a'.small[q] == a.small[q])
      && (q in a.large ==> q in a'.large && a'.large[q] == a.large[q])
  {
    StartPage(a, x);
    if InSmall(a, x) { FreeIs(a, x); }
  }

  lemma WriteKeeps(a: Heap, x: int, b: byte, q: int)
    requires WF(a) && LiveByte(a, x) && q != StartOf(a, x) / PAGE_SIZE
    ensures var a' := DoWrite(a, x, b);
      && (q in a.small ==> q in a'.small && a'.small[q] == a.small[q])
      && (q in a.large ==> q in a'.large && a'.large[q] == a.large[q])
  {
    StartPage(a, x);
  }

  /** The operation moves a free list or the small counters. */
  predicate MovesLists(a: Heap, op: Op) {
    match op
    case Malloc(n) => n <= LARGEST_BLOCK_SIZE
    case Free(x) => InSmall(a, x)
    case Write(_, _) => false
  }

  lemma ListsStay(a: Heap, op: Op)
    requires WF(a) && Legal(a, op) && !MovesLists(a, op)
    ensures SameLists(a, Step(a, op))
  {
  }

  lemma Others(s: Sys, g: Aux, u: Tid, g': Aux, op: Op)
    requires LocksOk(s) && Locals(s, g) && u in s.pcs && WF(g.a) && Legal(g.a, op) && g'.a == Step(g.a, op)
    requires MovesLists(g.a, op) ==> HoldsGm(s.pcs[u])
    requires forall w :: w in s.pcs && w != u && Owns(s.pcs[w]) ==> !WorksOn(g.a, op, Custody(s.pcs[w]))
    requires forall y :: SmallStart(g.a, y) || LargeStart(g.a, y) ==> SamePend(g, g', y / PAGE_SIZE)
    ensures OthersUndisturbed(s, g, u, g')
  {
    hide WF, Legal, Step, LocalOk, Owns, Custody, HoldsGm, HoldsGb, Keeps, SameLists, SamePend, SmallStart,
      LargeStart, WorksOn;
    forall w | w in s.pcs && w != u ensures Undisturbed(g, g', s.pcs[w]) {
      if Owns(s.pcs[w]) {
        OwnedIsLive(g, s.pcs[w]);
        StepKeeps(g, g', op, Custody(s.pcs[w]));
      }
      if !MovesLists(g.a, op) { ListsStay(g.a, op); }
    }
  }
}
