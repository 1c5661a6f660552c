/** Executions as the threads see them: the calls they make and the answers they get, and why every
    such history is that of a sequential run. */
module Histories {
  import opened Arith
  import opened Memory
  import opened SizeClass
  import opened Heap
  import opened Runs
  import opened RunSafety
  import opened Layout
  import opened Machine
  import opened Nuaf
  import opened Threads
  import opened ThreadSafety
  import opened ThreadSteps
  import opened ThreadMemory
  import opened ThreadRuns

  /** A call, the moment it takes effect, and its return. */
  datatype Act = Invoke(u: Tid, c: Call) | Effect(e: Event) | Return(u: Tid, answer: int)

  function Who(act: Act): Tid {
    if act.Effect? then act.e.u else act.u
  }

  // ----- histories

  /** What the caller gets when its call ends with a step from pc. */
  function Answer(pc: Pc): int {
    match pc
    case PopDone(ptr) => ptr
    case BigCount(p, _) => LargeAddr(p)
    case _ => 0
  }

  function Begins(pc: Pc, u: Tid, c: Call): seq<Act> {
    if pc.Idle? then [Invoke(u, c)] else []
  }

  function Ends(pc: Pc, pc': Pc, u: Tid): seq<Act> {
    if pc'.Idle? then [Return(u, Answer(pc))] else []
  }

  /** Where u is after its step. */
  function Now(s: Sys, u: Tid): Pc {
    if u in s.pcs then s.pcs[u] else Idle
  }

  /** The calls and returns of a schedule, in the order in which they happen. */
  function History(s: Sys, sched: seq<Move>): seq<Act>
    decreases |sched|
  {
    if sched == [] then []
    else if sched[0].u !in s.pcs then History(s, sched[1..])
    else
      var u, c := sched[0].u, sched[0].c;
      match Exec(s, u, c)
      case Fault => []
      case Blocked => History(s, sched[1..])
      case Next(s') =>
        Begins(s.pcs[u], u, c) + Ends(s.pcs[u], Now(s', u), u) + History(s', sched[1..])
  }

  // ----- traces: histories with the moments of effect put in

  /** The operation that takes effect when u moves from pc to pc'. */
  function Moment(pc: Pc, pc': Pc, u: Tid, c: Call): seq<Act> {
    if pc'.PopDone? && (pc.PopTest? || pc.PopCommit?) then [Effect(Event(u, Op.Malloc(pc.size), pc'.ptr))]
    else if pc'.BigUnlock? && pc.BigMap? then [Effect(Event(u, Op.Malloc(pc.size), LargeAddr(pc'.p)))]
    else if pc.FreeCommit? || pc.Unmap? then [Effect(Event(u, Op.Free(Custody(pc)), 0))]
    else if pc.Idle? && c.CallWrite? then [Effect(Event(u, Op.Write(c.addr, c.b), 0))]
    else []
  }

  function StepActs(pc: Pc, pc': Pc, u: Tid, c: Call): seq<Act> {
    Begins(pc, u, c) + Moment(pc, pc', u, c) + Ends(pc, pc', u)
  }

  function Trace(s: Sys, sched: seq<Move>): seq<Act>
    decreases |sched|
  {
    if sched == [] then []
    else if sched[0].u !in s.pcs then Trace(s, sched[1..])
    else
      var u, c := sched[0].u, sched[0].c;
      match Exec(s, u, c)
      case Fault => []
      case Blocked => Trace(s, sched[1..])
      case Next(s') => StepActs(s.pcs[u], Now(s', u), u, c) + Trace(s', sched[1..])
  }

  /** The calls and returns in a trace. */
  function Calls(acts: seq<Act>): seq<Act> {
    if acts == [] then []
    else if acts[0].Effect? then Calls(acts[1..])
    else [acts[0]] + Calls(acts[1..])
  }

  /** The operations in a trace, in the order of their effects. */
  function Effects(acts: seq<Act>): seq<Event> {
    if acts == [] then []
    else if acts[0].Effect? then [acts[0].e] + Effects(acts[1..])
    else Effects(acts[1..])
  }

  /** What thread u does in a trace. */
  function Of(acts: seq<Act>, u: Tid): seq<Act> {
    if acts == [] then []
    else if Who(acts[0]) == u then [acts[0]] + Of(acts[1..], u)
    else Of(acts[1..], u)
  }

  lemma CallsCons(act: Act, acts: seq<Act>)
    ensures Calls([act] + acts) == (if act.Effect? then [] else [act]) + Calls(acts)
  {
    assert ([act] + acts)[1..] == acts;
  }

  lemma {:induction false} CallsSplit(xs: seq<Act>, ys: seq<Act>)
    ensures Calls(xs + ys) == Calls(xs) + Calls(ys)
  {
    if xs == [] {
      assert xs + ys == ys;
    } else {
      hide Calls;
      CallsSplit(xs[1..], ys);
      assert xs == [xs[0]] + xs[1..] && xs + ys == [xs[0]] + (xs[1..] + ys);
      CallsCons(xs[0], xs[1..]);
      CallsCons(xs[0], xs[1..] + ys);
    }
  }

  lemma EffectsCons(act: Act, acts: seq<Act>)
    ensures Effects([act] + acts) == (if act.Effect? then [act.e] else []) + Effects(acts)
  {
    assert ([act] + acts)[1..] == acts;
  }

  lemma {:induction false} EffectsSplit(xs: seq<Act>, ys: seq<Act>)
    ensures Effects(xs + ys) == Effects(xs) + Effects(ys)
  {
    if xs == [] {
      assert xs + ys == ys;
    } else {
      hide Effects;
      EffectsSplit(xs[1..], ys);
      assert xs == [xs[0]] + xs[1..] && xs + ys == [xs[0]] + (xs[1..] + ys);
      EffectsCons(xs[0], xs[1..]);
      EffectsCons(xs[0], xs[1..] + ys);
    }
  }

  lemma OfCons(act: Act, acts: seq<Act>, u: Tid)
    ensures Of([act] + acts, u) == (if Who(act) == u then [act] else []) + Of(acts, u)
  {
    assert ([act] + acts)[1..] == acts;
  }

  lemma {:induction false} OfSplit(xs: seq<Act>, ys: seq<Act>, u: Tid)
    ensures Of(xs + ys, u) == Of(xs, u) + Of(ys, u)
  {
    if xs == [] {
      assert xs + ys == ys;
    } else {
      hide Of;
      OfSplit(xs[1..], ys, u);
      assert xs == [xs[0]] + xs[1..] && xs + ys == [xs[0]] + (xs[1..] + ys);
      OfCons(xs[0], xs[1..], u);
      OfCons(xs[0], xs[1..] + ys, u);
    }
  }

  /** The calls and returns of the trace are the history. */
  lemma {:induction false} TraceCalls(s: Sys, sched: seq<Move>)
    ensures Calls(Trace(s, sched)) == History(s, sched)
    decreases |sched|
  {
    hide Exec, StepActs, Calls;
    if sched == [] {
      assert Calls([]) == [] by { NoActs(); }
    } else if sched[0].u !in s.pcs {
      TraceCalls(s, sched[1..]);
    } else {
      var u, c := sched[0].u, sched[0].c;
      match Exec(s, u, c)
      case Fault => NoActs();
      case Blocked => TraceCalls(s, sched[1..]);
      case Next(s') =>
        TraceCalls(s', sched[1..]);
        StepFilters(s.pcs[u], Now(s', u), u, c, u);
        CallsSplit(StepActs(s.pcs[u], Now(s', u), u, c), Trace(s', sched[1..]));
    }
  }

  lemma NoActs()
    ensures Calls([]) == [] && Effects([]) == []
  {
  }

  lemma StepFilters(pc: Pc, pc': Pc, u: Tid, c: Call, w: Tid)
    ensures Calls(StepActs(pc, pc', u, c)) == Begins(pc, u, c) + Ends(pc, pc', u)
    ensures Of(StepActs(pc, pc', u, c), w) == if w == u then StepActs(pc, pc', u, c) else []
    ensures Effects(StepActs(pc, pc', u, c)) == if Moment(pc, pc', u, c) == [] then [] else [Moment(pc, pc', u, c)[0].e]
  {
    hide Moment, Begins, Ends, Calls, Effects, Of;
    var b, m, e := Begins(pc, u, c), Moment(pc, pc', u, c), Ends(pc, pc', u);
    MomentShape(pc, pc', u, c);
    BoundsShape(pc, pc', u, c);
    CallsSplit(b + m, e);
    CallsSplit(b, m);
    EffectsSplit(b + m, e);
    EffectsSplit(b, m);
    OfSplit(b + m, e, w);
    OfSplit(b, m, w);
    OneAct(b, u, w);
    OneAct(m, u, w);
    OneAct(e, u, w);
  }

  lemma OneAct(acts: seq<Act>, u: Tid, w: Tid)
    requires |acts| <= 1 && (acts != [] ==> Who(acts[0]) == u)
    ensures Of(acts, w) == if w == u then acts else []
    ensures Calls(acts) == if acts != [] && acts[0].Effect? then [] else acts
    ensures Effects(acts) == if acts != [] && acts[0].Effect? then [acts[0].e] else []
  {
  }

  lemma BoundsShape(pc: Pc, pc': Pc, u: Tid, c: Call)
    ensures var b := Begins(pc, u, c); |b| <= 1 && (b != [] ==> !b[0].Effect? && b[0].u == u)
    ensures var e := Ends(pc, pc', u); |e| <= 1 && (e != [] ==> !e[0].Effect? && e[0].u == u)
  {
  }

  lemma MomentShape(pc: Pc, pc': Pc, u: Tid, c: Call)
    ensures var m := Moment(pc, pc', u, c);
      m == [] || (|m| == 1 && m[0].Effect? && m[0].e.u == u)
  {
    hide Custody;
  }

  /** The log is the trace's operations. */
  lemma LogGrows(s: Sys, g: Aux, u: Tid, c: Call)
    requires u in s.pcs && Exec(s, u, c).Next?
    ensures var m := Moment(s.pcs[u], Now(Exec(s, u, c).s, u), u, c);
      After(s, g, u, c).log == g.log + if m == [] then [] else [m[0].e]
  {
    hide WF, Legal, Step, Mapped, Load, Store, RoundDownPage, RoundDown, Mremap, Mmap, Munmap, StoreHeader;
  }

  lemma {:induction false} TraceLog(s: Sys, g: Aux, sched: seq<Move>)
    requires Play(s, g, sched).End?
    ensures Play(s, g, sched).g.log == g.log + Effects(Trace(s, sched))
    decreases |sched|
  {
    hide Exec, After, StepActs, Moment, Effects;
    if sched == [] {
      NoActs();
    } else if sched[0].u !in s.pcs {
      TraceLog(s, g, sched[1..]);
    } else {
      var u, c := sched[0].u, sched[0].c;
      match Exec(s, u, c)
      case Blocked => TraceLog(s, g, sched[1..]);
      case Next(s') =>
        TraceLog(s', After(s, g, u, c), sched[1..]);
        LogGrows(s, g, u, c);
        StepFilters(s.pcs[u], Now(s', u), u, c, u);
        EffectsSplit(StepActs(s.pcs[u], Now(s', u), u, c), Trace(s', sched[1..]));
    }
  }

  // ----- the calls of one thread

  /** Where a thread is in its calls: outside, inside with the effect to come, inside with the
      effect past. */
  datatype Phase = Out | Asked(c: Call) | Done(c: Call, result: int) | Wrong

  /** The operation a call asks for. A free names the start of the object of its pointer. */
  predicate Matches(c: Call, op: Op) {
    match c
    case CallMalloc(n) => op == Op.Malloc(n)
    case CallFree(x, obj) => x != 0 && op == Op.Free(obj)
    case CallWrite(x, b) => op == Op.Write(x, b)
    case CallLock => false
  }

  /** Taking and releasing the mutexes and freeing NULL do nothing to the heap. */
  predicate HasEffect(c: Call) {
    !c.CallLock? && !(c.CallFree? && c.x == 0)
  }

  /** A call takes effect once, as what it asked for, and then returns the result of its effect;
      a call without effect just returns. Anything else is wrong. */
  function Advance(ph: Phase, act: Act): Phase {
    match act
    case Invoke(_, c) => if ph.Out? then Asked(c) else Wrong
    case Effect(e) => if ph.Asked? && Matches(ph.c, e.op) then Done(ph.c, e.result) else Wrong
    case Return(_, v) =>
      if ph.Done? && v == ph.result then Out
      else if ph.Asked? && !HasEffect(ph.c) && v == 0 then Out
      else Wrong
  }

  function Phases(ph: Phase, acts: seq<Act>): Phase
    decreases |acts|
  {
    if acts == [] then ph else Phases(Advance(ph, acts[0]), acts[1..])
  }

  lemma {:induction false} PhasesSplit(ph: Phase, xs: seq<Act>, ys: seq<Act>)
    ensures Phases(ph, xs + ys) == Phases(Phases(ph, xs), ys)
    decreases |xs|
  {
    if xs == [] {
      assert xs + ys == ys;
    } else {
      PhasesSplit(Advance(ph, xs[0]), xs[1..], ys);
      assert (xs + ys)[1..] == xs[1..] + ys;
    }
  }

  /** What the place of a thread says about its phase. */
  predicate PhaseOk(pc: Pc, ph: Phase) {
    match pc
    case Idle => ph == Out
    case PopWait(n) => ph == Asked(CallMalloc(n))
    case PopTest(n) => ph == Asked(CallMalloc(n))
    case PopHeader(n) => ph == Asked(CallMalloc(n))
    case PopCommit(n) => ph == Asked(CallMalloc(n))
    case BigWait(n) => ph == Asked(CallMalloc(n))
    case BigMap(n) => ph == Asked(CallMalloc(n))
    case PopDone(ptr) => ph.Done? && ph.result == ptr
    case BigUnlock(p, _) => ph.Done? && ph.result == LargeAddr(p)
    case BigMagic(p, _) => ph.Done? && ph.result == LargeAddr(p)
    case BigCount(p, _) => ph.Done? && ph.result == LargeAddr(p)
    case FreeDone => ph.Done? && ph.result == 0
    case LockFirst => ph == Asked(CallLock)
    case LockSecond => ph == Asked(CallLock)
    case Both => ph == Asked(CallLock)
    case UnlockSecond => ph == Asked(CallLock)
    case _ => ph.Asked? && ph.c.CallFree? && ph.c.x != 0 && ph.c.obj == Custody(pc)
  }

  /** The order of the steps of a call. */
  predicate Flows(pc: Pc, pc': Pc, c: Call) {
    match pc
    case Idle => (
      match c
      case CallMalloc(n) => pc' == BigWait(n) || pc' == PopWait(n)
      case CallFree(x, obj) => if x == 0 then pc'.Idle? else Finding(pc') && Custody(pc') == obj
      case CallWrite(_, _) => pc'.Idle?
      case CallLock => pc'.LockFirst?)
    case PopWait(n) => pc' == PopTest(n)
    case PopTest(n) => pc' == PopHeader(n) || pc'.PopDone?
    case PopHeader(n) => pc' == PopCommit(n)
    case PopCommit(n) => pc'.PopDone?
    case PopDone(_) => pc'.Idle?
    case BigWait(n) => pc' == BigMap(n)
    case BigMap(n) => pc'.BigUnlock?
    case BigUnlock(p, n) => pc' == BigMagic(p, n)
    case BigMagic(p, n) => pc' == BigCount(p, n)
    case BigCount(_, _) => pc'.Idle?
    case Unmap(_, _) => pc'.Idle?
    case FreeWait(start) => pc' == FreeMove(start)
    case FreeMove(start) => pc'.FreeRead? && pc'.start == start
    case FreeRead(start, _) => pc'.FreeLink? && pc'.start == start
    case FreeLink(start, _, _) => pc'.FreeCommit? && pc'.start == start
    case FreeCommit(_, _, _) => pc'.FreeDone?
    case FreeDone => pc'.Idle?
    case LockFirst => pc'.LockSecond?
    case LockSecond => pc'.Both?
    case Both => pc'.UnlockSecond?
    case UnlockSecond => pc'.Idle?
    case _ => Finding(pc') || pc'.FreeWait? || pc'.Unmap?
  }

  lemma NextPlace(s: Sys, u: Tid, c: Call)
    requires u in s.pcs && Exec(s, u, c).Next?
    ensures u in Exec(s, u, c).s.pcs && Flows(s.pcs[u], Now(Exec(s, u, c).s, u), c)
  {
    hide Exec, Flows;
    if Locking(s.pcs[u]) { LockPlace(s, u, c); } else { StepPlace(s, u, c); }
  }

  lemma LockPlace(s: Sys, u: Tid, c: Call)
    requires u in s.pcs && Locking(s.pcs[u]) && Exec(s, u, c).Next?
    ensures u in Exec(s, u, c).s.pcs && Flows(s.pcs[u], Now(Exec(s, u, c).s, u), c)
  {
  }

  lemma StepPlace(s: Sys, u: Tid, c: Call)
    requires u in s.pcs && !Locking(s.pcs[u]) && Exec(s, u, c).Next?
    ensures u in Exec(s, u, c).s.pcs && Flows(s.pcs[u], Now(Exec(s, u, c).s, u), c)
  {
    hide Mapped, Load, Store, RoundDownPage, RoundDown, Mremap, Mmap, Munmap, StoreHeader;
  }

  /** A step that is neither the first of its call, nor the last, nor its effect. */
  lemma QuietPhase(pc: Pc, pc': Pc, u: Tid, c: Call, ph: Phase)
    requires PhaseOk(pc, ph) && Flows(pc, pc', c) && (Finding(pc) ==> Custody(pc') == Custody(pc))
    requires !pc.Idle? && !pc'.Idle? && Moment(pc, pc', u, c) == []
    ensures PhaseOk(pc', ph)
  {
    hide LargeAddr;
  }

  lemma FirstPhase(pc': Pc, u: Tid, c: Call)
    requires Flows(Idle, pc', c)
    ensures !pc'.Idle? ==> Moment(Idle, pc', u, c) == [] && PhaseOk(pc', Asked(c))
    ensures pc'.Idle? && HasEffect(c) ==>
      c.CallWrite? && Moment(Idle, pc', u, c) == [Effect(Event(u, Op.Write(c.addr, c.b), 0))]
    ensures pc'.Idle? && !HasEffect(c) ==> Moment(Idle, pc', u, c) == []
  {
  }

  lemma EffectPhase(pc: Pc, pc': Pc, u: Tid, c: Call, ph: Phase)
    requires PhaseOk(pc, ph) && Flows(pc, pc', c) && !pc.Idle? && Moment(pc, pc', u, c) != []
    ensures ph.Asked? && |Moment(pc, pc', u, c)| == 1 && Moment(pc, pc', u, c)[0].Effect?
    ensures var e := Moment(pc, pc', u, c)[0].e;
      Matches(ph.c, e.op) && (if pc'.Idle? then e.result == Answer(pc) else PhaseOk(pc', Done(ph.c, e.result)))
  {
    hide LargeAddr;
  }

  lemma LastPhase(pc: Pc, pc': Pc, u: Tid, c: Call, ph: Phase)
    requires PhaseOk(pc, ph) && Flows(pc, pc', c) && !pc.Idle? && pc'.Idle? && Moment(pc, pc', u, c) == []
    ensures Advance(ph, Return(u, Answer(pc))) == Out
  {
    hide LargeAddr;
  }

  lemma PhaseMove(pc: Pc, pc': Pc, u: Tid, c: Call, ph: Phase)
    requires PhaseOk(pc, ph) && Flows(pc, pc', c) && (Finding(pc) ==> Custody(pc') == Custody(pc))
    ensures PhaseOk(pc', Phases(ph, StepActs(pc, pc', u, c)))
  {
    hide Flows, Moment, Custody, LargeAddr;
    var b, m, e := Begins(pc, u, c), Moment(pc, pc', u, c), Ends(pc, pc', u);
    PhasesSplit(ph, b + m, e);
    PhasesSplit(ph, b, m);
    if pc.Idle? {
      FirstPhase(pc', u, c);
    } else if m != [] {
      EffectPhase(pc, pc', u, c, ph);
    } else if pc'.Idle? {
      LastPhase(pc, pc', u, c, ph);
    } else {
      QuietPhase(pc, pc', u, c, ph);
    }
  }

  /** Every thread's part of the trace goes through its calls in the order invoked: each has its
      effect once, between its invocation and its return, as the operation asked for, and returns
      the result of that effect. */
  lemma {:induction false} EachCallOnce(s: Sys, g: Aux, sched: seq<Move>, w: Tid, ph: Phase)
    requires Inv(s, g) && Orderly(s, g, sched) && w in s.pcs && PhaseOk(s.pcs[w], ph)
    ensures Play(s, g, sched).End? && w in Play(s, g, sched).s.pcs
    ensures PhaseOk(Play(s, g, sched).s.pcs[w], Phases(ph, Of(Trace(s, sched), w)))
    decreases |sched|
  {
    hide Inv, Exec, After, Allowed, WF, StepActs, PhaseOk, Flows, Of;
    if sched == [] {
      NothingOf(w);
    } else if sched[0].u !in s.pcs {
      EachCallOnce(s, g, sched[1..], w, ph);
    } else {
      var u, c := sched[0].u, sched[0].c;
      StepSafe(s, g, u, c);
      match Exec(s, u, c)
      case Fault =>
      case Blocked => EachCallOnce(s, g, sched[1..], w, ph);
      case Next(s') =>
        var acts := StepActs(s.pcs[u], Now(s', u), u, c);
        NextPlace(s, u, c);
        if w != u { OtherStays(s, u, c, w); }
        if w == u {
          SameObject(s, g, u, c);
          PhaseMove(s.pcs[u], Now(s', u), u, c, ph);
        }
        StepFilters(s.pcs[u], Now(s', u), u, c, w);
        EachCallOnce(s', After(s, g, u, c), sched[1..], w, Phases(ph, Of(acts, w)));
        OfSplit(acts, Trace(s', sched[1..]), w);
        PhasesSplit(ph, Of(acts, w), Of(Trace(s', sched[1..]), w));
    }
  }

  lemma NothingOf(w: Tid)
    ensures Of([], w) == []
  {
  }

  lemma SameObject(s: Sys, g: Aux, u: Tid, c: Call)
    requires Inv(s, g) && u in s.pcs && Exec(s, u, c).Next?
    ensures Finding(s.pcs[u]) ==> Custody(Now(Exec(s, u, c).s, u)) == Custody(s.pcs[u])
  {
    hide Inv, Exec;
    if Finding(s.pcs[u]) {
      HandsSame(s, g, u, c);
      NextPlace(s, u, c);
    }
  }

  // ----- a free is of the object the caller pointed into

  /** The heap after an act of the sequential run. */
  ghost function HeapAfter(a: Heap, act: Act): Heap {
    if act.Effect? && WF(a) && Legal(a, act.e.op) then Step(a, act.e.op) else a
  }

  ghost function HeapThrough(a: Heap, acts: seq<Act>): Heap
    decreases |acts|
  {
    if acts == [] then a else HeapThrough(HeapAfter(a, acts[0]), acts[1..])
  }

  function PhaseAfter(ph: Phase, act: Act, w: Tid): Phase {
    if Who(act) == w then Advance(ph, act) else ph
  }

  /** The object named by a free that takes effect is the live one its caller's pointer is in. */
  ghost predicate FreesOwn(a: Heap, ph: Phase, act: Act, w: Tid) {
    act.Effect? && act.e.u == w && act.e.op.Free? && ph.Asked? && ph.c.CallFree? ==>
      LiveByte(a, ph.c.x) && act.e.op.ptr == StartOf(a, ph.c.x)
  }

  /** Every free of w in the trace is, in the sequential run from a, just before its effect, of the
      object that the pointer passed to it is in. */
  ghost predicate Honest(acts: seq<Act>, w: Tid, ph: Phase, a: Heap)
    decreases |acts|
  {
    acts == [] ||
    (FreesOwn(a, ph, acts[0], w) && Honest(acts[1..], w, PhaseAfter(ph, acts[0], w), HeapAfter(a, acts[0])))
  }

  lemma {:induction false} HonestSplit(xs: seq<Act>, ys: seq<Act>, w: Tid, ph: Phase, a: Heap)
    requires Honest(xs, w, ph, a) && Honest(ys, w, Phases(ph, Of(xs, w)), HeapThrough(a, xs))
    ensures Honest(xs + ys, w, ph, a)
    decreases |xs|
  {
    if xs == [] {
      assert xs + ys == ys;
    } else {
      hide FreesOwn, HeapAfter, Advance;
      assert (xs + ys)[1..] == xs[1..] + ys && (xs + ys)[0] == xs[0];
      OfCons(xs[0], xs[1..], w);
      assert xs == [xs[0]] + xs[1..];
      OneAhead(ph, xs[0], xs[1..], w);
      HonestSplit(xs[1..], ys, w, PhaseAfter(ph, xs[0], w), HeapAfter(a, xs[0]));
    }
  }

  lemma OneAhead(ph: Phase, act: Act, acts: seq<Act>, w: Tid)
    ensures Phases(ph, Of([act] + acts, w)) == Phases(PhaseAfter(ph, act, w), Of(acts, w))
  {
    OfCons(act, acts, w);
    PhasesSplit(ph, if Who(act) == w then [act] else [], Of(acts, w));
  }

  /** A thread that is freeing holds the object its caller pointed into, which is live. */
  ghost predicate Pointed(a: Heap, ph: Phase) {
    ph.Asked? && ph.c.CallFree? && ph.c.x != 0 ==> LiveByte(a, ph.c.x) && StartOf(a, ph.c.x) == ph.c.obj
  }

  /** A pointer into an object that stays as it is keeps pointing into it. */
  lemma StillPoints(g: Aux, g': Aux, x: int)
    requires WF(g.a) && WF(g'.a) && LiveByte(g.a, x) && Keeps(g, g', StartOf(g.a, x) / PAGE_SIZE)
    ensures LiveByte(g'.a, x) && StartOf(g'.a, x) == StartOf(g.a, x)
  {
    hide WF;
    StartPage(g.a, x);
    if !InSmall(g.a, x) {
      LiveLarge(g.a, x);
      LargeSpan(g'.a, g.a.lpage[x / PAGE_SIZE]);
      RangesApart(g'.a, x / PAGE_SIZE);
    }
  }

  /** A step of another thread leaves the object pointed to. */
  lemma OthersPointed(s: Sys, g: Aux, u: Tid, c: Call, w: Tid, ph: Phase)
    requires Ready(s, g, u, c) && w in s.pcs && w != u && PhaseOk(s.pcs[w], ph) && Pointed(g.a, ph)
    requires Exec(s, u, c).Next? && Inv(Exec(s, u, c).s, After(s, g, u, c))
    requires OthersUndisturbed(s, g, u, After(s, g, u, c))
    ensures Pointed(After(s, g, u, c).a, ph)
  {
    hide Ready, Inv, Exec, After, WF, LiveByte, StartOf, Custody, LocalOk, Shared, LocksOk, Locals, Custodies, PendHeld;
    hide Keeps;
    if ph.Asked? && ph.c.CallFree? && ph.c.x != 0 {
      ReadyParts(s, g, u, c);
      Heaps(s, g);
      Heaps(Exec(s, u, c).s, After(s, g, u, c));
      assert Undisturbed(g, After(s, g, u, c), s.pcs[w]);
      StillPoints(g, After(s, g, u, c), ph.c.x);
    }
  }

  lemma Heaps(s: Sys, g: Aux)
    requires Inv(s, g)
    ensures WF(g.a)
  {
    hide WF, Placed, Shows, Tops, Bumps, Backs, LocksOk, Locals, Custodies, PendHeld, Explained;
  }

  /** The auxiliary heap moves as the step's act says. */
  lemma HeapMoves(s: Sys, g: Aux, u: Tid, c: Call)
    requires u in s.pcs && Exec(s, u, c).Next?
    ensures var m := Moment(s.pcs[u], Now(Exec(s, u, c).s, u), u, c);
      After(s, g, u, c).a == if m == [] then g.a else HeapAfter(g.a, m[0])
  {
    hide WF, Legal, Step, Mapped, Load, Store, RoundDownPage, RoundDown, Mremap, Mmap, Munmap, StoreHeader;
  }

  lemma StepHeap(pc: Pc, pc': Pc, u: Tid, c: Call, a: Heap)
    ensures var m := Moment(pc, pc', u, c);
      HeapThrough(a, StepActs(pc, pc', u, c)) == if m == [] then a else HeapAfter(a, m[0])
  {
    hide Moment, WF, Legal, Step;
    MomentShape(pc, pc', u, c);
    var b, m, e := Begins(pc, u, c), Moment(pc, pc', u, c), Ends(pc, pc', u);
    ThroughSplit(a, b + m, e);
    ThroughSplit(a, b, m);
  }

  lemma {:induction false} ThroughSplit(a: Heap, xs: seq<Act>, ys: seq<Act>)
    ensures HeapThrough(a, xs + ys) == HeapThrough(HeapThrough(a, xs), ys)
    decreases |xs|
  {
    if xs == [] {
      assert xs + ys == ys;
    } else {
      ThroughSplit(HeapAfter(a, xs[0]), xs[1..], ys);
      assert (xs + ys)[1..] == xs[1..] + ys;
    }
  }

  /** The step's own acts are honest. */
  lemma StepHonest(pc: Pc, pc': Pc, u: Tid, c: Call, w: Tid, ph: Phase, a: Heap)
    requires w == u ==> PhaseOk(pc, ph) && Pointed(a, ph) && Flows(pc, pc', c)
    ensures Honest(StepActs(pc, pc', u, c), w, ph, a)
  {
    hide WF, Legal, Step, LiveByte, StartOf, Moment, Flows, PhaseOk, Custody;
    MomentShape(pc, pc', u, c);
    var b, m, e := Begins(pc, u, c), Moment(pc, pc', u, c), Ends(pc, pc', u);
    if w == u && m != [] { MomentFrees(pc, pc', u, c, ph, a); }
    HonestSplit(b, m, w, ph, a);
    HonestSplit(b + m, e, w, ph, a);
  }

  lemma MomentFrees(pc: Pc, pc': Pc, u: Tid, c: Call, ph: Phase, a: Heap)
    requires PhaseOk(pc, ph) && Pointed(a, ph) && Flows(pc, pc', c) && Moment(pc, pc', u, c) != []
    ensures var act := Moment(pc, pc', u, c)[0];
      act.Effect? && (act.e.op.Free? ==> !pc.Idle? && FreesOwn(a, ph, act, u))
  {
    hide LiveByte, StartOf;
  }

  /** The thread's own step: what it frees it was pointed to. */
  lemma OwnPointed(s: Sys, g: Aux, u: Tid, c: Call, ph: Phase)
    requires Ready(s, g, u, c) && Exec(s, u, c).Next? && PhaseOk(s.pcs[u], ph) && Pointed(g.a, ph)
    ensures var pc, pc' := s.pcs[u], Now(Exec(s, u, c).s, u);
      Pointed(After(s, g, u, c).a, Phases(ph, StepActs(pc, pc', u, c)))
  {
    hide Inv, Exec, After, WF, LiveByte, StartOf, WalkClear, Legal, Step, PhaseOk, Moment, Custody, LocalOk;
    var pc, pc' := s.pcs[u], Now(Exec(s, u, c).s, u);
    NextPlace(s, u, c);
    HeapMoves(s, g, u, c);
    OwnPhase(pc, pc', u, c, ph);
  }

  /** In a step without effect the phase is that of the call before, or of the call just begun. */
  lemma OwnPhase(pc: Pc, pc': Pc, u: Tid, c: Call, ph: Phase)
    requires PhaseOk(pc, ph) && Flows(pc, pc', c)
    ensures var ph' := Phases(ph, StepActs(pc, pc', u, c));
      ph'.Asked? ==> Moment(pc, pc', u, c) == [] && ph' == if pc.Idle? then Asked(c) else ph
  {
    hide Flows, Custody, LargeAddr, Matches;
    MomentShape(pc, pc', u, c);
    var b, m, e := Begins(pc, u, c), Moment(pc, pc', u, c), Ends(pc, pc', u);
    PhasesSplit(ph, b + m, e);
    PhasesSplit(ph, b, m);
    hide Moment, PhaseOk;
  }

  lemma {:induction false} TraceHonest(s: Sys, g: Aux, sched: seq<Move>, w: Tid, ph: Phase)
    requires Inv(s, g) && Orderly(s, g, sched) && w in s.pcs && PhaseOk(s.pcs[w], ph) && Pointed(g.a, ph)
    ensures Honest(Trace(s, sched), w, ph, g.a)
    decreases |sched|
  {
    hide Inv, Exec, After, Allowed, WF, StepActs, PhaseOk, Flows, Of, Pointed, Honest;
    if sched == [] {
      NothingHonest(w, ph, g.a);
    } else if sched[0].u !in s.pcs {
      TraceHonest(s, g, sched[1..], w, ph);
    } else {
      var u, c := sched[0].u, sched[0].c;
      StepSafe(s, g, u, c);
      match Exec(s, u, c)
      case Fault => NothingHonest(w, ph, g.a);
      case Blocked => TraceHonest(s, g, sched[1..], w, ph);
      case Next(s') =>
        var pc, pc', g' := s.pcs[u], Now(s', u), After(s, g, u, c);
        var acts := StepActs(pc, pc', u, c);
        NextPlace(s, u, c);
        StepFilters(pc, pc', u, c, w);
        StepHonest(pc, pc', u, c, w, ph, g.a);
        if w == u {
          SameObject(s, g, u, c);
          PhaseMove(pc, pc', u, c, ph);
          OwnPointed(s, g, u, c, ph);
        } else {
          OtherStays(s, u, c, w);
          OthersPointed(s, g, u, c, w, ph);
          NothingNew(ph);
        }
        TraceHonest(s', g', sched[1..], w, Phases(ph, Of(acts, w)));
        StepHeap(pc, pc', u, c, g.a);
        HeapMoves(s, g, u, c);
        HonestSplit(acts, Trace(s', sched[1..]), w, ph, g.a);
    }
  }

  lemma NothingHonest(w: Tid, ph: Phase, a: Heap)
    ensures Honest([], w, ph, a)
  {
  }

  lemma NothingNew(ph: Phase)
    ensures Phases(ph, []) == ph
  {
  }

  // ----- the main theorem

  /** A trace that explains a history: a legal sequential run of its operations from the empty
      heap, each giving the result that the call returns. */
  ghost predicate Sequential(acts: seq<Act>, a: Heap) {
    && WF(EMPTY) && Explains(EMPTY, Effects(acts), a)
    && LegalRun(EMPTY, Ops(Effects(acts))) && Run(EMPTY, Ops(Effects(acts))) == a
  }

  /** Every interleaving matches a sequential run. Its history, the calls and returns of the
      threads, extends to a trace in which each call has its effect once, between its invocation
      and its return; the effects in order are a legal sequential run with the same results, in
      which each free is of the object its caller's pointer is in; and memory at the end shows the
      heap of that run, up to calls still under way. */
  lemma Linearizable(tids: set<Tid>, sched: seq<Move>)
    requires Orderly(Start(tids), NOTHING_DONE, sched)
    ensures Play(Start(tids), NOTHING_DONE, sched).End?
    ensures var e, acts := Play(Start(tids), NOTHING_DONE, sched), Trace(Start(tids), sched);
      && Calls(acts) == History(Start(tids), sched)
      && (forall w :: w in tids ==> Phases(Out, Of(acts, w)) != Wrong && Honest(acts, w, Out, EMPTY))
      && (forall w :: w in tids ==> w in e.s.pcs && PhaseOk(e.s.pcs[w], Phases(Out, Of(acts, w))))
      && Sequential(acts, e.g.a) && Good(e.g.a) && Inv(e.s, e.g)
  {
    hide Play, Orderly, WF, RepMid, Inv, Trace, History, Of, Phases, Calls, Effects, Honest;
    var s := Start(tids);
    StartInv(tids);
    TraceCalls(s, sched);
    PlaySafe(s, NOTHING_DONE, sched);
    TraceLog(s, NOTHING_DONE, sched);
    var e := Play(s, NOTHING_DONE, sched);
    LogRun(e.s, e.g);
    assert NOTHING_DONE.log + Effects(Trace(s, sched)) == Effects(Trace(s, sched));
    forall w | w in tids
      ensures w in e.s.pcs && PhaseOk(e.s.pcs[w], Phases(Out, Of(Trace(s, sched), w)))
      ensures Honest(Trace(s, sched), w, Out, EMPTY)
    {
      EachCallOnce(s, NOTHING_DONE, sched, w, Out);
      TraceHonest(s, NOTHING_DONE, sched, w, Out);
    }
  }

  lemma LogRun(s: Sys, g: Aux)
    requires Inv(s, g)
    ensures WF(EMPTY) && Explains(EMPTY, g.log, g.a) && LegalRun(EMPTY, Ops(g.log)) && Run(EMPTY, Ops(g.log)) == g.a
    ensures Good(g.a)
  {
    hide WF, Shared, Locals, Custodies, LocksOk, PendHeld;
    ExplainsRun(EMPTY, g.log, g.a);
    EmptyGood();
    RunGood(EMPTY, Ops(g.log));
  }

  lemma EmptyGood()
    ensures Good(EMPTY)
  {
    EmptyWF();
  }

  /** With every thread idle again, memory is what that sequential run leaves, and every call has
      had its effect and its return. */
  lemma LinearizableAtRest(tids: set<Tid>, sched: seq<Move>)
    requires Orderly(Start(tids), NOTHING_DONE, sched)
    requires Play(Start(tids), NOTHING_DONE, sched).End?
    requires var e := Play(Start(tids), NOTHING_DONE, sched); forall w :: w in e.s.pcs ==> e.s.pcs[w].Idle?
    ensures var e, acts := Play(Start(tids), NOTHING_DONE, sched), Trace(Start(tids), sched);
      && Sequential(acts, e.g.a) && Rep(e.s.m, Run(EMPTY, Ops(Effects(acts))), NoHole, map[])
      && (forall w :: w in tids ==> Phases(Out, Of(acts, w)) == Out)
  {
    hide Play, Orderly, WF, RepMid, Inv, Trace, History, Of, Phases, Calls, Effects, Start;
    Linearizable(tids, sched);
    var e := Play(Start(tids), NOTHING_DONE, sched);
    Quiescent(e.s, e.g);
  }
}
