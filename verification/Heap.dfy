/** The allocator's abstract state: every small object with the virtual page that shows it now,
    eight stacks of freed objects, the live large objects, and the two address counters. */
module Heap {
  import opened Memory
  import opened SizeClass

  /** A canonical object: the idx-th ever issued in class cls, at offset off of its page. */
  datatype SmallObj = SmallObj(cls: nat, idx: nat, off: nat, live: bool, data: seq<byte>)

  datatype LargeObj = LargeObj(numPages: nat, data: seq<byte>)

  /** small: by virtual page. page[t][i]: the virtual page of the i-th object of class t.
      stacks[t]: pages of the free objects of class t, top first. large: by first page.
      lpage: first page of the large object each page belongs to. high, largeHigh: the next
      unused virtual pages. */
  datatype Heap = Heap(
    small: map<int, SmallObj>,
    page: seq<seq<int>>,
    stacks: seq<seq<int>>,
    high: int,
    large: map<int, LargeObj>,
    lpage: map<int, int>,
    largeHigh: int)

  const HEADER := 16
  // 2^63, the sign bound of the (intptr_t) comparisons, in pages.
  const MAX_PAGE := 0x8_0000_0000_0000
  const SIGN_BIT := 0x8000_0000_0000_0000
  const WORD := 0x1_0000_0000_0000_0000

  // ----- addresses

  function SmallAddr(a: Heap, v: int): int
    requires v in a.small
  {
    v * PAGE_SIZE + a.small[v].off
  }

  function LargeAddr(p: int): int { p * PAGE_SIZE + HEADER }

  /** The address of entry j of a stack; 0, which is NULL, past its end. */
  function EntryAddr(a: Heap, s: seq<int>, j: nat): nat
    requires j < |s| ==> s[j] in a.small && s[j] >= 0
  {
    if j < |s| then SmallAddr(a, s[j]) else 0
  }

  // ----- well-formedness

  ghost predicate Shape(a: Heap) {
    && |a.page| == NUM_BLOCK_TYPES && |a.stacks| == NUM_BLOCK_TYPES
    && MIN_PAGE <= a.high <= LARGE_PAGE <= a.largeHigh <= MAX_PAGE
  }

  ghost predicate SmallOk(a: Heap, v: int)
    requires Shape(a) && v in a.small
  {
    var o := a.small[v];
    && MIN_PAGE <= v < a.high
    && o.cls < NUM_BLOCK_TYPES && o.idx < |a.page[o.cls]| && a.page[o.cls][o.idx] == v
    && HEADER <= o.off && 16 <= |o.data| && o.off + |o.data| <= PAGE_SIZE
  }

  /** The issued objects and the mapped small pages are in bijection. */
  ghost predicate Bijection(a: Heap)
    requires Shape(a)
  {
    && (forall v :: v in a.small ==> SmallOk(a, v))
    && (forall t, i {:trigger a.page[t][i]} :: 0 <= t < NUM_BLOCK_TYPES && 0 <= i < |a.page[t]| ==>
          a.page[t][i] in a.small && a.small[a.page[t][i]].cls == t && a.small[a.page[t][i]].idx == i)
  }

  ghost predicate FreeEntry(a: Heap, t: nat, v: int) {
    v in a.small && !a.small[v].live && a.small[v].cls == t
  }

  ghost predicate Link(a: Heap, s: seq<int>, j: nat)
    requires j < |s| && s[j] in a.small && (j + 1 < |s| ==> s[j + 1] in a.small && s[j + 1] >= 0)
  {
    var d := a.small[s[j]].data;
    |d| >= 8 && d[..8] == Encode(EntryAddr(a, s, j + 1), 8)
  }

  /** s holds each free object of class t once, and every one of them begins with the
      address of the entry below it. */
  ghost predicate StackIs(a: Heap, t: nat, s: seq<int>) {
    && (forall j :: 0 <= j < |s| ==> FreeEntry(a, t, s[j]) && s[j] >= 0)
    && (forall i, j :: 0 <= i < j < |s| ==> s[i] != s[j])
    && (forall v :: FreeEntry(a, t, v) ==> v in s)
    && (forall j :: 0 <= j < |s| ==> Link(a, s, j))
  }

  ghost predicate StackOk(a: Heap, t: nat)
    requires Shape(a) && t < NUM_BLOCK_TYPES
  {
    StackIs(a, t, a.stacks[t])
  }

  ghost predicate Stacks(a: Heap)
    requires Shape(a)
  {
    forall t :: 0 <= t < NUM_BLOCK_TYPES ==> StackOk(a, t)
  }

  ghost predicate LargeOk(a: Heap, p: int)
    requires p in a.large
  {
    var o := a.large[p];
    && o.numPages >= 1 && |o.data| == o.numPages * PAGE_SIZE - HEADER
    && LARGE_PAGE <= p && p + o.numPages <= a.largeHigh
    && (forall g :: p <= g < p + o.numPages ==> g in a.lpage && a.lpage[g] == p)
  }

  /** Live large objects occupy disjoint runs of pages. */
  ghost predicate Larges(a: Heap) {
    && (forall p :: p in a.large ==> LargeOk(a, p))
    && (forall g :: g in a.lpage ==>
          a.lpage[g] in a.large && a.lpage[g] <= g < a.lpage[g] + a.large[a.lpage[g]].numPages)
  }

  ghost predicate WF(a: Heap) {
    Shape(a) && Bijection(a) && Stacks(a) && Larges(a)
  }

  // ----- the operations

  const EMPTY := Heap(map[], [[], [], [], [], [], [], [], []], [[], [], [], [], [], [], [], []],
                      MIN_PAGE, map[], map[], LARGE_PAGE)

  /** freelist_pop with an empty list: a new canonical object on a new page. */
  function FreshPop(a: Heap, o: SmallObj): Heap
    requires o.cls < |a.page|
  {
    a.(small := a.small[a.high := o],
       page := a.page[o.cls := a.page[o.cls] + [a.high]],
       high := a.high + 1)
  }

  /** The next canonical object of class t. */
  function NewObj(a: Heap, t: nat): SmallObj
    requires t < NUM_BLOCK_TYPES == |a.page|
  {
    var n := |a.page[t]|;
    SmallObj(t, n, Offset(t, n), true, Zeros(Size(t)))
  }

  /** freelist_pop with a non-empty list: the top entry comes back as it is. */
  function ListPop(a: Heap, t: nat): Heap
    requires t < |a.stacks| && a.stacks[t] != [] && a.stacks[t][0] in a.small
  {
    var v := a.stacks[t][0];
    a.(small := a.small[v := a.small[v].(live := true)],
       stacks := a.stacks[t := a.stacks[t][1..]])
  }

  /** A freed object with the link to entry e stored in its first word. */
  function Linked(data: seq<byte>, e: nat): seq<byte>
    requires |data| >= 8
  {
    Encode(e, 8) + data[8..]
  }

  /** xxfree of the small object on page v: it moves to the next unused page and onto its stack. */
  function FreeSmall(a: Heap, v: int): Heap
    requires v in a.small && a.small[v].cls < |a.stacks| == |a.page| == NUM_BLOCK_TYPES
    requires a.small[v].idx < |a.page[a.small[v].cls]| && |a.small[v].data| >= 8
    requires var s := a.stacks[a.small[v].cls]; s != [] ==> s[0] in a.small && 0 <= s[0]
  {
    var o := a.small[v];
    var e := EntryAddr(a, a.stacks[o.cls], 0);
    a.(small := (a.small - {v})[a.high := o.(live := false, data := Linked(o.data, e))],
       page := a.page[o.cls := a.page[o.cls][o.idx := a.high]],
       stacks := a.stacks[o.cls := [a.high] + a.stacks[o.cls]],
       high := a.high + 1)
  }

  function NumPages(size: nat): nat { (size + HEADER) / PAGE_SIZE + 1 }

  function PageRun(p: int, n: nat): map<int, int> {
    map g | p <= g < p + n && InRange(g, p, n) :: p
  }

  /** xxmalloc_big. */
  function MallocBig(a: Heap, n: nat): Heap
    requires n >= 1
  {
    a.(large := a.large[a.largeHigh := LargeObj(n, Zeros(n * PAGE_SIZE - HEADER))],
       lpage := a.lpage + PageRun(a.largeHigh, n),
       largeHigh := a.largeHigh + n)
  }

  /** xxfree of a large object: its pages disappear. */
  function FreeBig(a: Heap, p: int): Heap
    requires p in a.large
  {
    a.(large := a.large - {p}, lpage := a.lpage - PageRun(p, a.large[p].numPages).Keys)
  }

  function Poke(d: seq<byte>, i: nat, b: byte): seq<byte>
    requires i < |d|
  {
    d[i := b]
  }

  function WriteSmall(a: Heap, v: int, i: nat, b: byte): Heap
    requires v in a.small && i < |a.small[v].data|
  {
    a.(small := a.small[v := a.small[v].(data := Poke(a.small[v].data, i, b))])
  }

  function WriteLarge(a: Heap, p: int, i: nat, b: byte): Heap
    requires p in a.large && i < |a.large[p].data|
  {
    a.(large := a.large[p := a.large[p].(data := Poke(a.large[p].data, i, b))])
  }

  // ----- every operation keeps well-formedness

  lemma EmptyWF()
    ensures WF(EMPTY)
  {
  }

  lemma FreshPopWF(a: Heap, o: SmallObj)
    requires WF(a) && o.cls < NUM_BLOCK_TYPES && a.high < LARGE_PAGE
    requires o.idx == |a.page[o.cls]| && o.live
    requires HEADER <= o.off && 16 <= |o.data| && o.off + |o.data| <= PAGE_SIZE
    ensures WF(FreshPop(a, o))
  {
    var a' := FreshPop(a, o);
    assert Bijection(a') by {
      forall w | w in a'.small ensures SmallOk(a', w) { assert w != a.high ==> SmallOk(a, w); }
    }
    forall u: nat | u < NUM_BLOCK_TYPES ensures StackOk(a', u) {
      assert StackOk(a, u);
      assert forall w :: FreeEntry(a', u, w) ==> FreeEntry(a, u, w);
      LinksFrame(a, a', a.stacks[u]);
    }
    forall p | p in a'.large ensures LargeOk(a', p) { assert LargeOk(a, p); }
  }

  /** Links survive any change that leaves the entries themselves alone. */
  lemma LinksFrame(a: Heap, a': Heap, s: seq<int>)
    requires forall j :: 0 <= j < |s| ==>
      s[j] >= 0 && s[j] in a.small && s[j] in a'.small && a'.small[s[j]] == a.small[s[j]]
    requires forall j :: 0 <= j < |s| ==> Link(a, s, j)
    ensures forall j :: 0 <= j < |s| ==> Link(a', s, j)
  {
    forall j | 0 <= j < |s| ensures Link(a', s, j) {
      assert Link(a, s, j);
      if j + 1 < |s| { assert a'.small[s[j + 1]] == a.small[s[j + 1]]; }
    }
  }

  lemma ListPopWF(a: Heap, t: nat)
    requires WF(a) && t < NUM_BLOCK_TYPES && a.stacks[t] != []
    requires StackOk(a, t)
    ensures WF(ListPop(a, t))
  {
    var a' := ListPop(a, t);
    var v := a.stacks[t][0];
    assert FreeEntry(a, t, v);
    assert Bijection(a') by {
      forall w | w in a'.small ensures SmallOk(a', w) { assert SmallOk(a, w); }
    }
    forall u: nat | u < NUM_BLOCK_TYPES ensures StackOk(a', u) {
      ListPopStack(a, t, u);
    }
    forall p | p in a'.large ensures LargeOk(a', p) { assert LargeOk(a, p); }
  }

  lemma ListPopStack(a: Heap, t: nat, u: nat)
    requires Shape(a) && t < NUM_BLOCK_TYPES && u < NUM_BLOCK_TYPES && a.stacks[t] != []
    requires StackOk(a, t) && StackOk(a, u) && FreeEntry(a, t, a.stacks[t][0])
    ensures Shape(ListPop(a, t)) && StackOk(ListPop(a, t), u)
  {
    var a' := ListPop(a, t);
    var v := a.stacks[t][0];
    if u == t {
      assert a'.stacks[u] == a.stacks[t][1..];
      PopTop(a, a', t, a.stacks[t]);
    } else {
      assert a'.stacks[u] == a.stacks[u];
      forall j | 0 <= j < |a.stacks[u]| ensures a.stacks[u][j] != v { assert FreeEntry(a, u, a.stacks[u][j]); }
      LinksFrame(a, a', a.stacks[u]);
      assert forall w :: FreeEntry(a', u, w) ==> FreeEntry(a, u, w);
    }
  }

  lemma PopTop(a: Heap, a': Heap, t: nat, s: seq<int>)
    requires s != [] && StackIs(a, t, s)
    requires s[0] in a.small && a'.small == a.small[s[0] := a.small[s[0]].(live := true)]
    ensures StackIs(a', t, s[1..])
  {
    var s' := s[1..];
    forall j | 0 <= j < |s'| ensures FreeEntry(a', t, s'[j]) && s'[j] >= 0 && a'.small[s'[j]] == a.small[s'[j]] {
      assert s'[j] == s[j + 1] && FreeEntry(a, t, s[j + 1]) && s[j + 1] != s[0];
    }
    forall j | 0 <= j < |s'| ensures Link(a', s', j) {
      assert Link(a, s, j + 1);
    }
    forall w | FreeEntry(a', t, w) ensures w in s' {
      assert FreeEntry(a, t, w);
      var k :| 0 <= k < |s| && s[k] == w;
      assert s'[k - 1] == w;
    }
  }

  lemma FreeSmallWF(a: Heap, v: int)
    requires WF(a) && v in a.small && a.small[v].live && a.high < LARGE_PAGE
    ensures SmallOk(a, v) && StackOk(a, a.small[v].cls)
    ensures WF(FreeSmall(a, v))
  {
    var t := a.small[v].cls;
    assert SmallOk(a, v);
    assert StackOk(a, t);
    var a' := FreeSmall(a, v);
    assert Bijection(a') by {
      forall w | w in a'.small ensures SmallOk(a', w) {
        assert w != a.high ==> SmallOk(a, w);
      }
    }
    forall u: nat | u < NUM_BLOCK_TYPES ensures StackOk(a', u) {
      FreeSmallStack(a, v, u);
    }
    forall p | p in a'.large ensures LargeOk(a', p) { assert LargeOk(a, p); }
  }

  lemma FreeSmallStack(a: Heap, v: int, u: nat)
    requires Shape(a) && v in a.small && a.small[v].live && SmallOk(a, v) && u < NUM_BLOCK_TYPES
    requires a.high !in a.small && a.high < LARGE_PAGE
    requires StackOk(a, a.small[v].cls) && StackOk(a, u)
    ensures Shape(FreeSmall(a, v)) && StackOk(FreeSmall(a, v), u)
  {
    var a' := FreeSmall(a, v);
    var t := a.small[v].cls;
    var s := a.stacks[u];
    forall j | 0 <= j < |s| ensures s[j] != v && s[j] != a.high && s[j] in a.small && a'.small[s[j]] == a.small[s[j]] {
      assert FreeEntry(a, u, s[j]);
    }
    LinksFrame(a, a', s);
    assert forall w :: FreeEntry(a', u, w) && w != a.high ==> FreeEntry(a, u, w);
    if u == t {
      assert a'.stacks[u] == [a.high] + s;
      PushTop(a', t, a.high, s);
    } else {
      assert a'.stacks[u] == s;
    }
  }

  lemma PushTop(a: Heap, t: nat, v: int, s: seq<int>)
    requires FreeEntry(a, t, v) && v >= 0 && v !in s
    requires forall j :: 0 <= j < |s| ==> s[j] in a.small && FreeEntry(a, t, s[j]) && s[j] >= 0
    requires forall i, j :: 0 <= i < j < |s| ==> s[i] != s[j]
    requires forall w :: FreeEntry(a, t, w) && w != v ==> w in s
    requires forall j :: 0 <= j < |s| ==> Link(a, s, j)
    requires |a.small[v].data| >= 8 && a.small[v].data[..8] == Encode(EntryAddr(a, s, 0), 8)
    ensures StackIs(a, t, [v] + s)
  {
    var s' := [v] + s;
    forall j | 0 <= j < |s'| ensures FreeEntry(a, t, s'[j]) && s'[j] >= 0 {
      assert j > 0 ==> s'[j] == s[j - 1];
    }
    forall j | 0 <= j < |s'| ensures Link(a, s', j) {
      if j > 0 { assert Link(a, s, j - 1); }
    }
    forall w | FreeEntry(a, t, w) ensures w in s' {
      assert w == v || w in s;
    }
  }

  lemma MallocBigWF(a: Heap, n: nat)
    requires WF(a) && n >= 1 && a.largeHigh + n <= MAX_PAGE
    ensures WF(MallocBig(a, n))
  {
    var a' := MallocBig(a, n);
    assert Bijection(a');
    forall u: nat | u < NUM_BLOCK_TYPES ensures StackOk(a', u) { StackFrame(a, a', u); }
    forall p | p in a'.large ensures LargeOk(a', p) {
      assert p != a.largeHigh ==> LargeOk(a, p);
    }
    forall g | g in a'.lpage
      ensures a'.lpage[g] in a'.large && a'.lpage[g] <= g < a'.lpage[g] + a'.large[a'.lpage[g]].numPages
    {
      if g in a.lpage { assert LargeOk(a, a.lpage[g]); }
    }
  }

  lemma FreeBigWF(a: Heap, p: int)
    requires WF(a) && p in a.large
    ensures WF(FreeBig(a, p))
  {
    var a' := FreeBig(a, p);
    assert Bijection(a');
    forall u: nat | u < NUM_BLOCK_TYPES ensures StackOk(a', u) { StackFrame(a, a', u); }
    assert LargeOk(a, p);
    forall q | q in a'.large ensures LargeOk(a', q) {
      assert LargeOk(a, q);
      forall g | q <= g < q + a.large[q].numPages ensures g in a'.lpage {
        assert a.lpage[g] == q;
      }
    }
  }

  /** A stack depends only on the small objects. */
  lemma StackFrame(a: Heap, a': Heap, u: nat)
    requires Shape(a) && Bijection(a) && Stacks(a) && u < NUM_BLOCK_TYPES
    requires Shape(a') && Bijection(a') && a'.small == a.small && a'.stacks == a.stacks
    ensures StackOk(a', u)
  {
    assert StackOk(a, u);
    assert forall v :: FreeEntry(a', u, v) ==> FreeEntry(a, u, v);
    LinksFrame(a, a', a.stacks[u]);
  }

  lemma WriteSmallWF(a: Heap, v: int, i: nat, b: byte)
    requires WF(a) && v in a.small && a.small[v].live && i < |a.small[v].data|
    ensures WF(WriteSmall(a, v, i, b))
  {
    var a' := WriteSmall(a, v, i, b);
    assert Bijection(a') by {
      forall w | w in a'.small ensures SmallOk(a', w) { assert SmallOk(a, w); }
    }
    forall u: nat | u < NUM_BLOCK_TYPES ensures StackOk(a', u) {
      assert StackOk(a, u);
      assert forall w :: FreeEntry(a', u, w) ==> FreeEntry(a, u, w);
      LinksFrame(a, a', a.stacks[u]);
    }
    forall p | p in a'.large ensures LargeOk(a', p) { assert LargeOk(a, p); }
  }

  lemma WriteLargeWF(a: Heap, p: int, i: nat, b: byte)
    requires WF(a) && p in a.large && i < |a.large[p].data|
    ensures WF(WriteLarge(a, p, i, b))
  {
    var a' := WriteLarge(a, p, i, b);
    assert Bijection(a');
    forall u: nat | u < NUM_BLOCK_TYPES ensures StackOk(a', u) { StackFrame(a, a', u); }
    forall q | q in a'.large ensures LargeOk(a', q) { assert LargeOk(a, q); }
  }
}
