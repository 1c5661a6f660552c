/** What holds of every run of client operations: retired addresses, private contents,
    the high-water mark, and the address-space account. */
module RunSafety {
  import opened Memory
  import opened SizeClass
  import opened Heap
  import opened Runs
  import opened Safety

  ghost predicate LegalRun(a: Heap, ops: seq<Op>)
    requires WF(a)
    decreases |ops|
  {
    ops == [] || (Legal(a, ops[0]) && (StepWF(a, ops[0]); LegalRun(Step(a, ops[0]), ops[1..])))
  }

  ghost function Run(a: Heap, ops: seq<Op>): (a': Heap)
    requires WF(a) && LegalRun(a, ops)
    ensures WF(a')
    decreases |ops|
  {
    if ops == [] then a else StepWF(a, ops[0]); Run(Step(a, ops[0]), ops[1..])
  }

  lemma {:induction false} RunGood(a: Heap, ops: seq<Op>)
    requires Good(a) && LegalRun(a, ops)
    ensures Good(Run(a, ops))
    decreases |ops|
  {
    if ops == [] {
    } else {
      StepGood(a, ops[0]);
      RunGood(Step(a, ops[0]), ops[1..]);
    }
  }

  /** The legal run of ops leads from a to a'. */
  ghost predicate Ran(a: Heap, ops: seq<Op>, a': Heap) {
    WF(a) && LegalRun(a, ops) && Run(a, ops) == a'
  }

  lemma RanOne(a: Heap, op: Op)
    requires WF(a) && Legal(a, op)
    ensures Ran(a, [op], Step(a, op))
  {
    hide WF, Legal, Step;
    StepWF(a, op);
    RanNone(Step(a, op));
    assert [op][1..] == [];
  }

  lemma {:induction false} RanThen(a: Heap, xs: seq<Op>, b: Heap, ys: seq<Op>, c: Heap)
    requires Ran(a, xs, b) && Ran(b, ys, c)
    ensures Ran(a, xs + ys, c)
    decreases |xs|
  {
    hide WF, Legal, Step;
    if xs == [] {
      assert xs + ys == ys;
    } else {
      StepWF(a, xs[0]);
      RanThen(Step(a, xs[0]), xs[1..], b, ys, c);
      assert (xs + ys)[0] == xs[0] && (xs + ys)[1..] == xs[1..] + ys;
    }
  }

  lemma RanStep(a: Heap, ops: seq<Op>, b: Heap, op: Op)
    requires Ran(a, ops, b) && WF(b) && Legal(b, op)
    ensures Ran(a, ops + [op], Step(b, op))
  {
    hide WF, Legal, Step, Ran;
    RanOne(b, op);
    RanThen(a, ops, b, [op], Step(b, op));
  }

  lemma RanNone(a: Heap)
    requires WF(a)
    ensures Ran(a, [], a)
  {
  }

  /** The client stores the bytes d from address x on. */
  function Writes(x: int, d: seq<byte>): seq<Op>
    decreases |d|
  {
    if d == [] then [] else [Op.Write(x, d[0])] + Writes(x + 1, d[1..])
  }

  lemma {:induction false} WritesSnoc(x: int, d: seq<byte>, b: byte)
    ensures Writes(x, d + [b]) == Writes(x, d) + [Op.Write(x + |d|, b)]
    decreases |d|
  {
    if d == [] {
      assert (d + [b])[1..] == [];
    } else {
      WritesSnoc(x + 1, d[1..], b);
      assert (d + [b])[1..] == d[1..] + [b];
    }
  }

  // ----- temporal safety

  /** A page handed out once and mapped no longer. */
  ghost predicate Retired(a: Heap, g: int) {
    (MIN_PAGE <= g < a.high || LARGE_PAGE <= g < a.largeHigh) && !MappedPage(a, g)
  }

  /** Page g holds part of the object of the live byte x. */
  ghost predicate ObjPage(a: Heap, x: int, g: int)
    requires LiveByte(a, x)
  {
    if InSmall(a, x) then g == x / PAGE_SIZE else g in a.lpage && a.lpage[g] == a.lpage[x / PAGE_SIZE]
  }

  lemma StepRetired(a: Heap, op: Op, g: int)
    requires WF(a) && Legal(a, op) && Retired(a, g)
    ensures Retired(Step(a, op), g)
  {
    RangesApart(a, g);
    match op
    case Malloc(n) =>
      if n <= LARGEST_BLOCK_SIZE {
        BlockTypeIsLeast(n);
        PopWF(a, BlockType(n));
      }
    case Free(x) =>
    case Write(x, b) =>
  }

  lemma {:induction false} RunRetired(a: Heap, ops: seq<Op>, g: int)
    requires WF(a) && LegalRun(a, ops) && Retired(a, g)
    ensures Retired(Run(a, ops), g)
    decreases |ops|
  {
    if ops == [] {
    } else {
      StepWF(a, ops[0]);
      StepRetired(a, ops[0], g);
      RunRetired(Step(a, ops[0]), ops[1..], g);
    }
  }

  lemma RanRetired(a: Heap, ops: seq<Op>, a': Heap, g: int)
    requires Ran(a, ops, a') && Retired(a, g)
    ensures Retired(a', g)
  {
    hide Retired, WF, Legal;
    RunRetired(a, ops, g);
  }

  lemma FreeRetires(a: Heap, x: int, g: int)
    requires WF(a) && Legal(a, Op.Free(x)) && x != 0 && ObjPage(a, x, g)
    ensures MappedPage(a, g) && Retired(DoFree(a, x), g)
  {
    RangesApart(a, g);
    if InSmall(a, x) {
      assert SmallOk(a, g);
    } else {
      assert LargeOk(a, a.lpage[g]);
    }
  }

  /** No use after free: once an object is freed, no page it occupied is mapped in any later
      state of any run, and no later allocation has a byte in one. */
  lemma NeverMappedAgain(a: Heap, x: int, ops: seq<Op>, g: int)
    requires WF(a) && Legal(a, Op.Free(x)) && x != 0 && ObjPage(a, x, g)
    requires WF(DoFree(a, x)) && LegalRun(DoFree(a, x), ops)
    ensures !MappedPage(Run(DoFree(a, x), ops), g)
    ensures var b := Blocks(Run(DoFree(a, x), ops));
      forall q, y :: q in b && InRange(y, q, |b[q]|) ==> y / PAGE_SIZE != g
  {
    FreeRetires(a, x, g);
    RunRetired(DoFree(a, x), ops, g);
    var a' := Run(DoFree(a, x), ops);
    forall q, y | q in Blocks(a') && InRange(y, q, |Blocks(a')[q]|) ensures y / PAGE_SIZE != g {
      BlockInsidePages(a', q, y);
    }
  }

  /** The same by bytes: wherever a freed block had one, there is no page after any continuation. */
  lemma FreedBytesGone(a: Heap, x: int, ops: seq<Op>, y: int)
    requires WF(a) && Legal(a, Op.Free(x)) && x != 0 && StartOf(a, x) in Blocks(a)
    requires StartOf(a, x) <= y < StartOf(a, x) + |Blocks(a)[StartOf(a, x)]|
    requires WF(DoFree(a, x)) && LegalRun(DoFree(a, x), ops)
    ensures var b := Run(DoFree(a, x), ops); y / 4096 !in b.small && y / 4096 !in b.lpage
  {
    hide Blocks, WF;
    LiveByteInBlock(a, y);
    SameObject(a, x, y);
    NeverMappedAgain(a, x, ops, y / PAGE_SIZE);
  }

  lemma SameObject(a: Heap, x: int, y: int)
    requires WF(a) && LiveByte(a, x) && LiveByte(a, y) && StartOf(a, y) == StartOf(a, x)
    ensures ObjPage(a, x, y / PAGE_SIZE)
  {
    RangesApart(a, x / PAGE_SIZE);
    RangesApart(a, y / PAGE_SIZE);
    if InSmall(a, x) { assert SmallOk(a, x / PAGE_SIZE); } else { assert LargeOk(a, a.lpage[x / PAGE_SIZE]); }
    if InSmall(a, y) { assert SmallOk(a, y / PAGE_SIZE); } else { assert LargeOk(a, a.lpage[y / PAGE_SIZE]); }
  }

  // ----- private contents

  /** The contents of the block at q after the writes of a run that fall inside it. */
  ghost function Replay(d: seq<byte>, q: int, ops: seq<Op>): seq<byte>
    decreases |ops|
  {
    if ops == [] then d
    else if ops[0].Write? && q <= ops[0].addr < q + |d|
    then Replay(Poke(d, ops[0].addr - q, ops[0].b), q, ops[1..])
    else Replay(d, q, ops[1..])
  }

  /** A block that is not freed stays, and changes only by the writes aimed at it: no other
      operation of the run, on any object, touches its bytes. */
  lemma {:induction false} PrivateContents(a: Heap, ops: seq<Op>, q: int)
    requires Good(a) && LegalRun(a, ops) && q in Blocks(a)
    requires forall i :: 0 <= i < |ops| && ops[i].Free? ==> !(q <= ops[i].ptr < q + |Blocks(a)[q]|)
    ensures q in Blocks(Run(a, ops))
    ensures Blocks(Run(a, ops))[q] == Replay(Blocks(a)[q], q, ops)
    decreases |ops|
  {
    hide WF, Placed, Legal, Step, Blocks;
    if ops == [] {
    } else {
      var op := ops[0];
      StepGood(a, op);
      var a' := Step(a, op);
      StepPrivate(a, op, q);
      PrivateContents(a', ops[1..], q);
    }
  }

  lemma {:induction false} ReplayLength(d: seq<byte>, q: int, ops: seq<Op>)
    ensures |Replay(d, q, ops)| == |d|
    decreases |ops|
  {
    if ops == [] {
    } else {
      if ops[0].Write? && q <= ops[0].addr < q + |d| {
        ReplayLength(Poke(d, ops[0].addr - q, ops[0].b), q, ops[1..]);
      } else {
        ReplayLength(d, q, ops[1..]);
      }
    }
  }

  lemma StepPrivate(a: Heap, op: Op, q: int)
    requires Good(a) && Legal(a, op) && q in Blocks(a)
    requires op.Free? ==> !(q <= op.ptr < q + |Blocks(a)[q]|)
    ensures q in Blocks(Step(a, op))
    ensures Blocks(Step(a, op))[q] ==
      if op.Write? && q <= op.addr < q + |Blocks(a)[q]| then Poke(Blocks(a)[q], op.addr - q, op.b) else Blocks(a)[q]
  {
    match op
    case Malloc(n) => MallocBlocks(a, n);
    case Free(x) =>
      if x != 0 {
        FreeBlocks(a, x);
        LiveByteInBlock(a, x);
      }
    case Write(x, b) =>
      WriteBlocks(a, x, b);
      LiveByteInBlock(a, x);
  }

  // ----- the high-water mark

  ghost function LiveSet(a: Heap, t: nat): set<int> {
    set v | v in a.small && a.small[v].live && a.small[v].cls == t
  }

  ghost function Elems(s: seq<int>): set<int> {
    set x | x in s
  }

  lemma {:induction false} DistinctElems(s: seq<int>)
    requires forall i, j :: 0 <= i < j < |s| ==> s[i] != s[j]
    ensures |Elems(s)| == |s|
  {
    if s == [] {
    } else {
      DistinctElems(s[1..]);
      assert Elems(s) == Elems(s[1..]) + {s[0]};
    }
  }

  /** Canonical objects of a class are either live or on its free list. */
  lemma LivePlusFree(a: Heap, t: nat)
    requires WF(a) && t < NUM_BLOCK_TYPES
    ensures |LiveSet(a, t)| + |a.stacks[t]| == |a.page[t]|
  {
    assert StackOk(a, t);
    DistinctElems(a.stacks[t]);
    forall i, j | 0 <= i < j < |a.page[t]| ensures a.page[t][i] != a.page[t][j] {
      assert a.small[a.page[t][i]].idx == i && a.small[a.page[t][j]].idx == j;
    }
    DistinctElems(a.page[t]);
    forall v ensures v in Elems(a.page[t]) <==> v in LiveSet(a, t) || v in Elems(a.stacks[t])
             ensures !(v in LiveSet(a, t) && v in Elems(a.stacks[t]))
    {
      LiveOrFree(a, t, v);
    }
    assert Elems(a.page[t]) == LiveSet(a, t) + Elems(a.stacks[t]);
    assert LiveSet(a, t) !! Elems(a.stacks[t]);
  }

  lemma LiveOrFree(a: Heap, t: nat, v: int)
    requires Shape(a) && Bijection(a) && t < NUM_BLOCK_TYPES && StackOk(a, t)
    ensures v in a.page[t] <==> v in LiveSet(a, t) || v in a.stacks[t]
    ensures !(v in LiveSet(a, t) && v in a.stacks[t])
  {
    if v in a.page[t] {
      var i :| 0 <= i < |a.page[t]| && a.page[t][i] == v;
      assert a.page[t][i] in a.small;
      assert !a.small[v].live ==> FreeEntry(a, t, v);
    }
    if v in a.stacks[t] {
      var j :| 0 <= j < |a.stacks[t]| && a.stacks[t][j] == v;
      assert FreeEntry(a, t, a.stacks[t][j]);
    }
    if v in a.small { assert SmallOk(a, v); }
  }

  /** The largest number of class-t objects live at once in a run. */
  ghost function Peak(a: Heap, ops: seq<Op>, t: nat): nat
    requires WF(a) && LegalRun(a, ops)
    decreases |ops|
  {
    var here := |LiveSet(a, t)|;
    if ops == [] then here
    else
      StepWF(a, ops[0]);
      var later := Peak(Step(a, ops[0]), ops[1..], t);
      if here >= later then here else later
  }

  lemma StepIssues(a: Heap, op: Op, t: nat)
    requires WF(a) && Legal(a, op) && t < NUM_BLOCK_TYPES && WF(Step(a, op))
    ensures |Step(a, op).page[t]| == |a.page[t]|
         || (|Step(a, op).page[t]| == |a.page[t]| + 1 && Step(a, op).stacks[t] == [])
  {
  }

  /** Canonical memory is the high-water mark: the objects ever issued in a class are as many
      as were ever live at once. */
  lemma {:induction false} HighWater(a: Heap, ops: seq<Op>, t: nat)
    requires WF(a) && LegalRun(a, ops) && t < NUM_BLOCK_TYPES
    ensures var peak := Peak(a, ops, t);
      |Run(a, ops).page[t]| == if peak >= |a.page[t]| then peak else |a.page[t]|
    decreases |ops|
  {
    LivePlusFree(a, t);
    if ops == [] {
    } else {
      StepWF(a, ops[0]);
      var a' := Step(a, ops[0]);
      StepIssues(a, ops[0], t);
      LivePlusFree(a', t);
      HighWater(a', ops[1..], t);
    }
  }

  lemma HighWaterFromStart(ops: seq<Op>, t: nat)
    requires WF(EMPTY) && LegalRun(EMPTY, ops) && t < NUM_BLOCK_TYPES
    ensures |Run(EMPTY, ops).page[t]| == Peak(EMPTY, ops, t)
  {
    HighWater(EMPTY, ops, t);
  }

  // ----- the address-space account

  ghost predicate IsFresh(a: Heap, op: Op)
    requires WF(a)
  {
    op.Malloc? && op.size <= LARGEST_BLOCK_SIZE && (BlockTypeIsLeast(op.size); a.stacks[BlockType(op.size)] == [])
  }

  ghost function FreshPops(a: Heap, ops: seq<Op>): nat
    requires WF(a) && LegalRun(a, ops)
    decreases |ops|
  {
    if ops == [] then 0
    else StepWF(a, ops[0]); (if IsFresh(a, ops[0]) then 1 else 0) + FreshPops(Step(a, ops[0]), ops[1..])
  }

  ghost function SmallFrees(a: Heap, ops: seq<Op>): nat
    requires WF(a) && LegalRun(a, ops)
    decreases |ops|
  {
    if ops == [] then 0
    else
      StepWF(a, ops[0]);
      (if ops[0].Free? && ops[0].ptr != 0 && InSmall(a, ops[0].ptr) then 1 else 0)
      + SmallFrees(Step(a, ops[0]), ops[1..])
  }

  function LargePages(ops: seq<Op>): nat {
    if ops == [] then 0
    else
      (if ops[0].Malloc? && ops[0].size > LARGEST_BLOCK_SIZE then NumPages(ops[0].size) else 0)
      + LargePages(ops[1..])
  }

  predicate Between(g: int, lo: int, hi: int) { lo <= g < hi }

  ghost function PageSet(lo: int, hi: int): set<int> {
    set g | lo <= g < hi && Between(g, lo, hi)
  }

  ghost function RetiredSmall(a: Heap): set<int> {
    PageSet(MIN_PAGE, a.high) - a.small.Keys
  }

  lemma StepAccount(a: Heap, op: Op)
    requires WF(a) && Legal(a, op)
    ensures var a' := Step(a, op);
      && a'.high == a.high + (if IsFresh(a, op) then 1 else 0)
                   + (if op.Free? && op.ptr != 0 && InSmall(a, op.ptr) then 1 else 0)
      && a'.largeHigh == a.largeHigh + LargePages([op])
      && |a'.small| == |a.small| + (if IsFresh(a, op) then 1 else 0)
  {
    if op.Malloc? { MallocAccount(a, op.size); }
    if op.Free? && op.ptr != 0 && InSmall(a, op.ptr) { FreeAccount(a, op.ptr / PAGE_SIZE); }
  }

  lemma MallocAccount(a: Heap, n: nat)
    requires WF(a) && Legal(a, Op.Malloc(n))
    ensures var a' := DoMalloc(a, n).0;
      && a'.high == a.high + (if IsFresh(a, Op.Malloc(n)) then 1 else 0)
      && |a'.small| == |a.small| + (if IsFresh(a, Op.Malloc(n)) then 1 else 0)
      && a'.largeHigh == a.largeHigh + (if n > LARGEST_BLOCK_SIZE then NumPages(n) else 0)
  {
    RangesApart(a, a.high);
    if n <= LARGEST_BLOCK_SIZE {
      BlockTypeIsLeast(n);
      PopWF(a, BlockType(n));
    }
  }

  lemma FreeAccount(a: Heap, v: int)
    requires WF(a) && v in a.small && a.small[v].live
    ensures SmallOk(a, v) && StackOk(a, a.small[v].cls)
    ensures var s := a.stacks[a.small[v].cls]; s != [] ==> FreeEntry(a, a.small[v].cls, s[0]) && s[0] >= 0
    ensures |FreeSmall(a, v).small| == |a.small|
  {
    FreeSmallReady(a, v);
    RangesApart(a, a.high);
  }

  /** One page per fresh object and one per small free; large pages are never reused; the
      mapped small pages are the objects ever issued. */
  lemma {:induction false} AddressAccount(a: Heap, ops: seq<Op>)
    requires WF(a) && LegalRun(a, ops)
    ensures var a' := Run(a, ops);
      && a'.high == a.high + FreshPops(a, ops) + SmallFrees(a, ops)
      && a'.largeHigh == a.largeHigh + LargePages(ops)
      && |a'.small| == |a.small| + FreshPops(a, ops)
    decreases |ops|
  {
    if ops == [] {
    } else {
      StepWF(a, ops[0]);
      StepAccount(a, ops[0]);
      AddressAccount(Step(a, ops[0]), ops[1..]);
    }
  }

  lemma {:induction false} RangeCount(lo: int, hi: int)
    requires lo <= hi
    ensures |PageSet(lo, hi)| == hi - lo
    decreases hi - lo
  {
    if lo < hi {
      RangeCount(lo, hi - 1);
      assert PageSet(lo, hi) == PageSet(lo, hi - 1) + {hi - 1};
    } else {
      assert PageSet(lo, hi) == {};
    }
  }

  /** The pages below high_vaddr are the mapped ones and the retired ones, and after a run
      from the start the retired ones number the small frees. */
  lemma RetiredCount(ops: seq<Op>)
    requires WF(EMPTY) && LegalRun(EMPTY, ops)
    ensures var a := Run(EMPTY, ops);
      |a.small| + |RetiredSmall(a)| == a.high - MIN_PAGE && |RetiredSmall(a)| == SmallFrees(EMPTY, ops)
  {
    var a := Run(EMPTY, ops);
    AddressAccount(EMPTY, ops);
    RangeCount(MIN_PAGE, a.high);
    forall g | g in a.small ensures g in PageSet(MIN_PAGE, a.high) { assert SmallOk(a, g); }
    assert PageSet(MIN_PAGE, a.high) == a.small.Keys + RetiredSmall(a);
  }
}
