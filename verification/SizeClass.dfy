/** Constants of freelist.h and allocator.c, the eight size classes, and the layout of
    canonical objects in the backing file. */
module SizeClass {
  import opened Arith

  const PAGE_SIZE := 4096
  const BYTE_ALIGNMENT := 16
  const MAGIC_NUMBER := 4
  const MIN_BLOCK_SIZE := 16
  const LARGEST_BLOCK_SIZE := 2048
  const NUM_BLOCK_TYPES := 8
  const DATA_SIZE := 0x100_0000_0000
  const MMAP_MIN_ADDR := 0x1_0000_0000
  const LARGE_OBJ_VADDR_START := 0xFF_FF00_0000
  const LARGE_OBJ_START_MAGIC := 0xC001BE9

  // The two address ranges as page numbers.
  const MIN_PAGE := 0x10_0000
  const LARGE_PAGE := 0xFFF_F000

  /** Objects of class t are 1 << (MAGIC_NUMBER + t) bytes. */
  function Size(t: nat): nat { Pow2(MAGIC_NUMBER + t) }

  /** The class freelist_pop picks for a request. */
  function BlockType(n: nat): nat {
    if n < MIN_BLOCK_SIZE then 0
    else
      Pow2Monotone(0, CeilLog2(n));
      BlockTypeAux(n);
      CeilLog2(n) - MAGIC_NUMBER
  }

  lemma BlockTypeAux(n: nat)
    requires n >= MIN_BLOCK_SIZE
    ensures CeilLog2(n) >= MAGIC_NUMBER
  {
    assert Pow2(3) == 8;
    if CeilLog2(n) <= 3 { Pow2Monotone(CeilLog2(n), 3); }
  }

  lemma SizeValues()
    ensures Size(0) == 16 && Size(1) == 32 && Size(2) == 64 && Size(3) == 128
    ensures Size(4) == 256 && Size(5) == 512 && Size(6) == 1024 && Size(7) == 2048
  {
    assert Pow2(4) == 16;
    assert Pow2(6) == 64;
    assert Pow2(8) == 256;
    assert Pow2(10) == 1024;
    assert Pow2(11) == 2048;
  }

  /** A small request gets the least class that holds it. */
  lemma BlockTypeIsLeast(n: nat)
    requires n <= LARGEST_BLOCK_SIZE
    ensures BlockType(n) < NUM_BLOCK_TYPES
    ensures n <= Size(BlockType(n))
    ensures forall t: nat :: n <= Size(t) ==> BlockType(n) <= t
  {
    SizeValues();
    if n >= MIN_BLOCK_SIZE {
      var k := CeilLog2(n);
      BlockTypeAux(n);
      assert Pow2(11) == 2048;
      if k >= 12 { Pow2Monotone(11, k - 1); }
      forall t: nat | n <= Size(t) ensures BlockType(n) <= t {
        if t < BlockType(n) { Pow2Monotone(t + 4, k - 1); }
      }
    }
  }

  /** In numbers: up to 2048 bytes there is a class, of 16 bytes or of less than twice the request;
      above there is none. */
  lemma ClassInNumbers(n: nat)
    ensures n <= 2048 <==> exists t: nat :: t < 8 && n <= Size(t)
    ensures n <= 2048 ==> BlockType(n) < 8
    ensures n <= 2048 ==> n <= Size(BlockType(n)) && (Size(BlockType(n)) == 16 || Size(BlockType(n)) < 2 * n)
  {
    SizeValues();
    if n <= 2048 {
      BlockTypeIsLeast(n);
      var t := BlockType(n);
      assert n <= Size(7);
      if t > 0 { assert Size(t) == 2 * Size(t - 1); }
    } else {
      forall t: nat | t < 8 ensures Size(t) < n { Pow2Monotone(MAGIC_NUMBER + t, 11); }
    }
  }

  /** That fixes the class. */
  lemma ClassOf(n: nat, t: nat)
    requires t < 8 && n <= Size(t) && (Size(t) == 16 || Size(t) < 2 * n)
    ensures n <= LARGEST_BLOCK_SIZE && BlockType(n) == t
  {
    hide BlockType;
    SizeValues();
    Pow2Monotone(MAGIC_NUMBER + t, 11);
    BlockTypeIsLeast(n);
    var u := BlockType(n);
    if u < t {
      Pow2Monotone(MAGIC_NUMBER + u, MAGIC_NUMBER + t - 1);
      Pow2Monotone(4, MAGIC_NUMBER + t - 1);
    }
  }

  // ----- canonical objects

  /** How many objects of class t the bump pointer puts in one canonical page. */
  function PerPage(t: nat): (k: nat)
    requires t < NUM_BLOCK_TYPES
    ensures k > 0
  {
    match t
    case 0 => 253 case 1 => 126 case 2 => 62 case 3 => 30
    case 4 => 14 case 5 => 6 case 6 => 2 case _ => 1
  }

  /** In-page offset of the n-th object of class t. */
  function Offset(t: nat, n: nat): nat
    requires t < NUM_BLOCK_TYPES
  {
    BYTE_ALIGNMENT + (n % PerPage(t)) * Size(t)
  }

  /** Canonical page of the n-th object of class t. */
  function CanonicalPage(t: nat, n: nat): nat
    requires t < NUM_BLOCK_TYPES
  {
    t + NUM_BLOCK_TYPES * (n / PerPage(t))
  }

  function CanonicalAddr(t: nat, n: nat): nat
    requires t < NUM_BLOCK_TYPES
  {
    CanonicalPage(t, n) * PAGE_SIZE + Offset(t, n)
  }

  /** What freelist_pop does to high_canonical_addr after a fresh object of class t. */
  function Bump(t: nat, high: nat): nat {
    var next := high + Size(t);
    var bof := next % PAGE_SIZE;
    if bof == 0 || bof >= PAGE_SIZE - 2 * Size(t)
    then RoundUp(next, PAGE_SIZE) + PAGE_SIZE * (NUM_BLOCK_TYPES - 1) + BYTE_ALIGNMENT
    else next
  }

  /** Each canonical object lies in one page, past the header, at a multiple of its size. */
  lemma OffsetBounds(t: nat, n: nat)
    requires t < NUM_BLOCK_TYPES
    ensures BYTE_ALIGNMENT <= Offset(t, n)
    ensures Offset(t, n) + Size(t) <= PAGE_SIZE
    ensures (Offset(t, n) - BYTE_ALIGNMENT) % Size(t) == 0
    ensures PAGE_SIZE % Size(t) == 0
    ensures Offset(t, n) % BYTE_ALIGNMENT == 0
    ensures 16 <= Size(t) <= 2048
  {
    hide Size, PerPage;
    SizeBounds(t);
    PlaceBounds(n % PerPage(t), PerPage(t), Size(t));
  }

  /** The sizes divide a page, and PerPage of them fit behind the header. */
  lemma SizeBounds(t: nat)
    requires t < NUM_BLOCK_TYPES
    ensures 16 <= Size(t) <= 2048 && PAGE_SIZE % Size(t) == 0 && Size(t) % 16 == 0
    ensures BYTE_ALIGNMENT + PerPage(t) * Size(t) <= PAGE_SIZE
  {
    SizeValues();
    match t
    case 0 => case 1 => case 2 => case 3 => case 4 => case 5 => case 6 => case _ =>
  }

  lemma PlaceBounds(r: nat, k: nat, s: nat)
    requires r < k && s > 0 && s % 16 == 0 && BYTE_ALIGNMENT + k * s <= PAGE_SIZE
    ensures BYTE_ALIGNMENT + r * s + s <= PAGE_SIZE
    ensures (r * s) % s == 0 && (BYTE_ALIGNMENT + r * s) % BYTE_ALIGNMENT == 0
  {
    MulMod(r, s);
    Multiple16(r, s);
    Apart(r, k, s);
  }

  lemma Multiple16(r: nat, s: nat)
    requires s % 16 == 0
    ensures (BYTE_ALIGNMENT + r * s) % BYTE_ALIGNMENT == 0
  {
    var q := s / 16;
    assert s == q * 16;
    assert r * (q * 16) == (r * q) * 16;
    DivModUnique(BYTE_ALIGNMENT + r * s, 16, 1 + r * q, 0);
  }

  /** The closed form: bumping the address of object n gives the address of object n + 1,
      and the page is never filled exactly. */
  lemma BumpIsNext(t: nat, n: nat)
    requires t < NUM_BLOCK_TYPES
    ensures CanonicalAddr(t, 0) == t * PAGE_SIZE + BYTE_ALIGNMENT
    ensures Bump(t, CanonicalAddr(t, n)) == CanonicalAddr(t, n + 1)
    ensures (CanonicalAddr(t, n) + Size(t)) % PAGE_SIZE != 0
  {
    SizeValues();
    var k := PerPage(t);
    var q, r := n / k, n % k;
    NextIndex(n, k);
    var next := CanonicalAddr(t, n) + Size(t);
    var off := Offset(t, n) + Size(t);
    LastInPage(t, r);
    DivModUnique(next, PAGE_SIZE, CanonicalPage(t, n), off);
    hide Pow2;
    assert r + 1 >= k ==> RoundUp(next, PAGE_SIZE) == (CanonicalPage(t, n) + 1) * PAGE_SIZE;
  }

  /** The closed form in numbers: the eight sizes, and how many objects of each a page takes. */
  lemma PlacesInNumbers(t: nat, n: nat)
    requires t < 8
    ensures var size, k := [16, 32, 64, 128, 256, 512, 1024, 2048][t], [253, 126, 62, 30, 14, 6, 2, 1][t];
      Size(t) == size && CanonicalAddr(t, n) == (t + 8 * (n / k)) * 4096 + 16 + (n % k) * size
  {
    SizeValues();
    match t
    case 0 => case 1 => case 2 => case 3 => case 4 => case 5 => case 6 => case _ =>
  }

  /** The r-th object of a page is the last one exactly when the bump pointer moves on. */
  lemma LastInPage(t: nat, r: nat)
    requires t < NUM_BLOCK_TYPES && r < PerPage(t)
    ensures var off := BYTE_ALIGNMENT + r * Size(t) + Size(t);
      && 0 < off < PAGE_SIZE && off == BYTE_ALIGNMENT + (r + 1) * Size(t)
      && (off >= PAGE_SIZE - 2 * Size(t) <==> r + 1 == PerPage(t))
  {
    SizeValues();
    match t
    case 0 => case 1 => case 2 => case 3 => case 4 => case 5 => case 6 => case _ =>
  }

  lemma NextIndex(n: nat, k: nat)
    requires k > 0
    ensures n % k + 1 < k ==> (n + 1) / k == n / k && (n + 1) % k == n % k + 1
    ensures n % k + 1 == k ==> (n + 1) / k == n / k + 1 && (n + 1) % k == 0
  {
    var q, r := n / k, n % k;
    assert n == k * q + r;
    if r + 1 < k {
      DivModUnique(n + 1, k, q, r + 1);
    } else {
      assert n + 1 == k * (q + 1);
      DivModUnique(n + 1, k, q + 1, 0);
    }
  }

  lemma MulMod(r: nat, s: nat)
    requires s > 0
    ensures (r * s) % s == 0
  {
    DivModUnique(r * s, s, r, 0);
  }

  lemma Apart(r: nat, r': nat, s: nat)
    requires r != r'
    ensures r * s + s <= r' * s || r' * s + s <= r * s
  {
    if r < r' { assert (r + 1) * s <= r' * s; } else { assert (r' + 1) * s <= r * s; }
  }

  /** Objects in the same canonical page are of the same class and differ in their place in it. */
  lemma SamePage(t: nat, n: nat, t': nat, n': nat)
    requires t < NUM_BLOCK_TYPES && t' < NUM_BLOCK_TYPES && (t, n) != (t', n')
    requires CanonicalPage(t, n) == CanonicalPage(t', n')
    ensures t == t' && n % PerPage(t) != n' % PerPage(t)
  {
    EighthParts(n / PerPage(t), t, n' / PerPage(t'), t');
    if n != n' { OtherRemainder(n, n', PerPage(t)); }
  }

  lemma EighthParts(q: nat, t: nat, q': nat, t': nat)
    requires t < 8 && t' < 8 && t + 8 * q == t' + 8 * q'
    ensures q == q' && t == t'
  {
  }

  lemma OtherRemainder(n: nat, n': nat, k: nat)
    requires k > 0 && n / k == n' / k && n != n'
    ensures n % k != n' % k
  {
    assert n == k * (n / k) + n % k && n' == k * (n' / k) + n' % k;
  }

  /** Two canonical objects never overlap, whatever their classes. */
  lemma CanonicalDisjoint(t: nat, n: nat, t': nat, n': nat)
    requires t < NUM_BLOCK_TYPES && t' < NUM_BLOCK_TYPES
    requires (t, n) != (t', n')
    ensures CanonicalAddr(t, n) + Size(t) <= CanonicalAddr(t', n')
         || CanonicalAddr(t', n') + Size(t') <= CanonicalAddr(t, n)
  {
    OffsetBounds(t, n);
    OffsetBounds(t', n');
    if CanonicalPage(t, n) == CanonicalPage(t', n') {
      SamePage(t, n, t', n');
      Apart(n % PerPage(t), n' % PerPage(t), Size(t));
    }
  }

  /** The first 2^25 pages of a class lie inside the backing file. */
  lemma InsideDataFile(t: nat, n: nat)
    requires t < NUM_BLOCK_TYPES
    ensures CanonicalAddr(t, n) + Size(t) <= 0x100_0000_0000 <==> n < 0x200_0000 * PerPage(t)
  {
    OffsetBounds(t, n);
    var k := PerPage(t);
    assert n == k * (n / k) + n % k;
    if n < 0x200_0000 * k {
      assert n / k < 0x200_0000;
    } else {
      assert n / k >= 0x200_0000;
    }
  }
}
