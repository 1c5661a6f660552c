/** xxmalloc_lock and xxmalloc_unlock: what the caller can rely on while it has both mutexes, and who
    works without either. */
module Locks {
  import opened Memory
  import opened SizeClass
  import opened Heap
  import opened Runs
  import opened Threads
  import opened ThreadSafety
  import opened ThreadSteps
  import opened ThreadMemory
  import opened ThreadRuns

  ghost predicate HasBoth(e: End, u: Tid) {
    e.End? && e.s.gm == Held(u) && e.s.gb == Held(u)
  }

  predicate IdleIn(e: End, u: Tid) {
    e.End? && u in e.s.pcs && e.s.pcs[u].Idle?
  }

  predicate Taking(pc: Pc) {
    pc.LockFirst? || pc.LockSecond? || pc.Both?
  }

  lemma PlayOne(s: Sys, g: Aux, mv: Move, sched: seq<Move>)
    ensures Play(s, g, [mv] + sched) ==
      if mv.u !in s.pcs || Exec(s, mv.u, mv.c).Blocked? then Play(s, g, sched)
      else if Exec(s, mv.u, mv.c).Fault? then Faulted
      else Play(Exec(s, mv.u, mv.c).s, After(s, g, mv.u, mv.c), sched)
  {
    hide Exec, After;
    assert ([mv] + sched)[1..] == sched;
  }

  lemma TakingStep(s: Sys, w: Tid, c: Call, u: Tid)
    requires w in s.pcs && u in s.pcs && Exec(s, w, c).Next?
    requires s.pcs[u].LockFirst? || s.pcs[u].LockSecond?
    ensures u in Exec(s, w, c).s.pcs && Taking(Exec(s, w, c).s.pcs[u])
  {
    hide Exec;
    if u != w { OtherStays(s, w, c, u); } else { OwnLock(s, u, c); }
  }

  lemma OwnLock(s: Sys, u: Tid, c: Call)
    requires u in s.pcs && (s.pcs[u].LockFirst? || s.pcs[u].LockSecond?) && Exec(s, u, c).Next?
    ensures u in Exec(s, u, c).s.pcs && Taking(Exec(s, u, c).s.pcs[u])
  {
  }

  lemma BothHeld(s: Sys, g: Aux, u: Tid)
    requires Inv(s, g) && u in s.pcs && s.pcs[u].Both?
    ensures s.gm == Held(u) && s.gb == Held(u)
  {
    hide Inv, Shared, Locals, Custodies, PendHeld, LocalOk, WF;
    Mine(s, g, u);
  }

  /** From inside the call of xxmalloc_lock there is no way back to the program but through a
      moment with both mutexes. */
  lemma {:induction false} TakesBoth(s: Sys, g: Aux, sched: seq<Move>, u: Tid)
    requires Inv(s, g) && Orderly(s, g, sched) && u in s.pcs && Taking(s.pcs[u])
    requires IdleIn(Play(s, g, sched), u)
    ensures exists k: nat :: k <= |sched| && HasBoth(Play(s, g, sched[..k]), u)
    decreases |sched|
  {
    hide Inv, Exec, After, Allowed, WF;
    if s.pcs[u].Both? {
      BothHeld(s, g, u);
      assert sched[..0] == [];
      assert HasBoth(Play(s, g, sched[..0]), u);
    } else if sched == [] {
    } else {
      var w, c := sched[0].u, sched[0].c;
      var s', g' := s, g;
      if w in s.pcs {
        StepSafe(s, g, w, c);
        if Exec(s, w, c).Next? {
          TakingStep(s, w, c, u);
          s', g' := Exec(s, w, c).s, After(s, g, w, c);
        }
      }
      TakesBoth(s', g', sched[1..], u);
      var k: nat :| k <= |sched[1..]| && HasBoth(Play(s', g', sched[1..][..k]), u);
      assert sched[..k + 1] == [sched[0]] + sched[1..][..k];
      PlayOne(s, g, sched[0], sched[1..][..k]);
      assert HasBoth(Play(s, g, sched[..k + 1]), u);
    }
  }

  lemma LockBegins(s: Sys, g: Aux, u: Tid)
    requires u in s.pcs && s.pcs[u].Idle?
    ensures Exec(s, u, CallLock).Next? && After(s, g, u, CallLock) == g
    ensures u in Exec(s, u, CallLock).s.pcs && Taking(Exec(s, u, CallLock).s.pcs[u])
  {
  }

  /** A call of xxmalloc_lock that is over has had both mutexes. */
  lemma LockHasBoth(s: Sys, g: Aux, sched: seq<Move>, u: Tid)
    requires Inv(s, g) && Orderly(s, g, sched) && u in s.pcs && s.pcs[u].Idle?
    requires sched != [] && sched[0] == Move(u, CallLock) && IdleIn(Play(s, g, sched), u)
    ensures exists k: nat :: 1 <= k <= |sched| && HasBoth(Play(s, g, sched[..k]), u)
  {
    hide Inv, Exec, After, Allowed, WF;
    LockBegins(s, g, u);
    StepSafe(s, g, u, CallLock);
    var s' := Exec(s, u, CallLock).s;
    TakesBoth(s', g, sched[1..], u);
    var k: nat :| k <= |sched[1..]| && HasBoth(Play(s', g, sched[1..][..k]), u);
    assert sched[..k + 1] == [sched[0]] + sched[1..][..k];
    PlayOne(s, g, sched[0], sched[1..][..k]);
    assert HasBoth(Play(s, g, sched[..k + 1]), u);
  }

  /** Nothing but large frees and client writes. */
  ghost predicate Frozen(a: Heap, a': Heap) {
    && a'.high == a.high && a'.largeHigh == a.largeHigh && a'.stacks == a.stacks && a'.page == a.page
    && a'.small.Keys == a.small.Keys && a'.large.Keys <= a.large.Keys
  }

  /** While a thread has both mutexes, no step of another one allocates or frees a small object. */
  lemma LockExcludes(s: Sys, g: Aux, u: Tid, w: Tid, c: Call)
    requires Ready(s, g, w, c) && s.gm == Held(u) && s.gb == Held(u) && w != u
    ensures Frozen(g.a, After(s, g, w, c).a)
  {
    hide Ready, Exec, After, Inv, WF, Shared, LocksOk, Locals, Custodies, PendHeld, LocalOk;
    ReadyParts(s, g, w, c);
    Mine(s, g, w);
    HoldsNothing(s, u, w);
    if s.pcs[w].Unmap? { UnmapFreezes(s, g, w, c); } else { OtherFreezes(s, g, w, c); }
  }

  lemma HoldsNothing(s: Sys, u: Tid, w: Tid)
    requires LocksOk(s) && s.gm == Held(u) && s.gb == Held(u) && w != u && w in s.pcs
    ensures !HoldsGm(s.pcs[w]) && !HoldsGb(s.pcs[w])
  {
    hide HoldsGm, HoldsGb;
  }

  lemma UnmapFreezes(s: Sys, g: Aux, w: Tid, c: Call)
    requires w in s.pcs && s.pcs[w].Unmap? && WF(g.a) && LocalOk(g.a, g.pend, s.pcs[w])
    ensures Frozen(g.a, After(s, g, w, c).a)
  {
    hide WF, Legal, Step;
    UnmapIsStep(g.a, s.pcs[w].start / PAGE_SIZE);
  }

  lemma OtherFreezes(s: Sys, g: Aux, w: Tid, c: Call)
    requires w in s.pcs && !s.pcs[w].Unmap? && !HoldsGm(s.pcs[w]) && !HoldsGb(s.pcs[w]) && WF(g.a)
    ensures Frozen(g.a, After(s, g, w, c).a)
  {
    hide WF, Legal;
    if s.pcs[w].Idle? && c.CallWrite? && Legal(g.a, Op.Write(c.addr, c.b)) { WriteFreezes(g.a, c.addr, c.b); }
  }

  lemma WriteFreezes(a: Heap, x: int, b: byte)
    requires WF(a) && Legal(a, Op.Write(x, b))
    ensures Frozen(a, Step(a, Op.Write(x, b)))
  {
    hide WF, Poke;
  }

  /** A thread that looks for the start of its object, unmaps it, or writes the header of a new one
      has no mutex. */
  lemma WorksUnlocked(s: Sys, g: Aux, u: Tid)
    requires Inv(s, g) && u in s.pcs
    requires Finding(s.pcs[u]) || s.pcs[u].Unmap? || s.pcs[u].BigMagic? || s.pcs[u].BigCount?
    ensures s.gm != Held(u) && s.gb != Held(u)
  {
    hide Inv, Shared, Locals, Custodies, PendHeld, LocalOk, WF;
    Mine(s, g, u);
  }
}
