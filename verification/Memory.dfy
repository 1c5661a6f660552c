/** A process address space as a page table, the three kernel calls the allocator makes on it,
    and little-endian words stored in pages. */
module Memory {
  import opened SizeClass

  type byte = x: int | 0 <= x < 256

  /** The mapped virtual pages and their contents. */
  type Mem = map<int, seq<byte>>

  // ----- little-endian words

  function Pow256(n: nat): (r: nat)
    ensures r >= 1
  {
    if n == 0 then 1 else 256 * Pow256(n - 1)
  }

  function Encode(v: nat, n: nat): (s: seq<byte>)
    ensures |s| == n
  {
    if n == 0 then [] else [v % 256] + Encode(v / 256, n - 1)
  }

  function Decode(s: seq<byte>): nat
  {
    if s == [] then 0 else s[0] + 256 * Decode(s[1..])
  }

  lemma {:induction false} DecodeEncode(v: nat, n: nat)
    requires v < Pow256(n)
    ensures Decode(Encode(v, n)) == v
  {
    if n == 0 {
    } else {
      DecodeEncode(v / 256, n - 1);
      assert Encode(v, n)[1..] == Encode(v / 256, n - 1);
    }
  }

  lemma {:induction false} EncodeDecode(s: seq<byte>)
    ensures Decode(s) < Pow256(|s|)
    ensures Encode(Decode(s), |s|) == s
  {
    if s == [] {
    } else {
      EncodeDecode(s[1..]);
      assert Decode(s) / 256 == Decode(s[1..]);
      assert s == [s[0]] + s[1..];
    }
  }

  lemma Pow256Values()
    ensures Pow256(4) == 0x1_0000_0000
    ensures Pow256(8) == 0x1_0000_0000_0000_0000
  {
    assert Pow256(2) == 0x1_0000;
    assert Pow256(4) == 0x1_0000_0000;
    assert Pow256(6) == 0x1_0000_0000_0000;
  }

  // ----- words in memory

  /** The n bytes at address x are mapped and lie in one page. */
  predicate Mapped(mem: Mem, x: int, n: nat) {
    x / PAGE_SIZE in mem && x % PAGE_SIZE + n <= |mem[x / PAGE_SIZE]|
  }

  /** *(T*)x for an n-byte unsigned T. */
  function Load(mem: Mem, x: int, n: nat): nat
    requires Mapped(mem, x, n)
  {
    Decode(mem[x / PAGE_SIZE][x % PAGE_SIZE..x % PAGE_SIZE + n])
  }

  function Splice(s: seq<byte>, off: nat, d: seq<byte>): (r: seq<byte>)
    requires off + |d| <= |s|
    ensures |r| == |s|
  {
    s[..off] + d + s[off + |d|..]
  }

  function Store(mem: Mem, x: int, d: seq<byte>): Mem
    requires Mapped(mem, x, |d|)
  {
    mem[x / PAGE_SIZE := Splice(mem[x / PAGE_SIZE], x % PAGE_SIZE, d)]
  }

  lemma SpliceReads(s: seq<byte>, off: nat, d: seq<byte>)
    requires off + |d| <= |s|
    ensures Splice(s, off, d)[off..off + |d|] == d
    ensures forall lo, hi :: 0 <= lo <= hi <= off ==> Splice(s, off, d)[lo..hi] == s[lo..hi]
    ensures forall lo, hi :: off + |d| <= lo <= hi <= |s| ==> Splice(s, off, d)[lo..hi] == s[lo..hi]
  {
  }

  /** Address arithmetic within a page. */
  lemma PageOffset(g: int, off: nat)
    requires off < PAGE_SIZE
    ensures (g * PAGE_SIZE + off) / PAGE_SIZE == g && (g * PAGE_SIZE + off) % PAGE_SIZE == off
  {
  }

  /** The word stored at offset off of page g is the word loaded from there. */
  lemma LoadWord(mem: Mem, g: int, off: nat, v: nat, n: nat)
    requires g in mem && off < PAGE_SIZE && off + n <= |mem[g]| && v < Pow256(n)
    requires mem[g][off..off + n] == Encode(v, n)
    ensures Mapped(mem, g * PAGE_SIZE + off, n)
    ensures Load(mem, g * PAGE_SIZE + off, n) == v
  {
    PageOffset(g, off);
    DecodeEncode(v, n);
  }

  // ----- the kernel

  predicate InRange(y: int, x: int, len: nat) {
    x <= y < x + len
  }

  function Zeros(n: nat): (s: seq<byte>)
    ensures |s| == n
    ensures forall i :: 0 <= i < n ==> s[i] == 0
  {
    seq<byte>(n, i => 0)
  }

  /** mmap of n pages with MAP_FIXED | MAP_PRIVATE: zero pages replace whatever was there. */
  function Mmap(mem: Mem, p: int, n: nat): Mem {
    mem + map g | p <= g < p + n && InRange(g, p, n) :: Zeros(PAGE_SIZE)
  }

  function Munmap(mem: Mem, p: int, n: nat): Mem {
    map g | g in mem && !InRange(g, p, n) :: mem[g]
  }

  /** mremap of one page with MREMAP_FIXED | MREMAP_MAYMOVE: the contents travel, the old page
      is no longer mapped. */
  function Mremap(mem: Mem, old_: int, new_: int): Mem
    requires old_ in mem
  {
    (mem - {old_})[new_ := mem[old_]]
  }
}
