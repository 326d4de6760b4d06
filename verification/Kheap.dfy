/** The subpage allocator of the kernel heap (kern/vm/kmalloc.c:351-633). */
module Kheap {
  import opened Common
  import opened PageRefs

  const PAGE := 4096
  const NSIZES := 8
  const SIZES: seq<nat> := [16, 32, 64, 128, 256, 512, 1024, 2048]
  const LARGEST := 2048
  const INVALID := 0xffff

  function Size(b: nat): (size: nat)
    requires b < NSIZES
    ensures 16 <= size <= LARGEST && size % 16 == 0 && PAGE % size == 0
  {
    SIZES[b]
  }

  /** How many blocks of this type a page holds. */
  function PerPage(b: nat): (n: nat)
    requires b < NSIZES
    ensures n * Size(b) == PAGE
  {
    PAGE / Size(b)
  }

  /** PR_PAGEADDR and PR_BLOCKTYPE: a page address with the block type in its low bits. */
  function PageAddr(pab: nat): nat {
    pab - pab % PAGE
  }

  function BlockType(pab: nat): nat {
    pab % PAGE
  }

  type Memory = map<nat, nat>

  function Load(mem: Memory, a: nat): nat {
    if a in mem then mem[a] else 0
  }

  ghost predicate SameOutside(mem: Memory, mem': Memory, lo: nat, hi: nat) {
    forall x: nat | x < lo || x >= hi :: Load(mem', x) == Load(mem, x)
  }

  /** The address a free block's first word holds: the next free block, 0 at the end. */
  function NextFree(page: nat, list: seq<nat>, k: nat): nat {
    if k + 1 < |list| then page + list[k + 1] else 0
  }

  /** The first word of the k-th free block leads to the next one. */
  predicate LinkAt(mem: Memory, page: nat, list: seq<nat>, k: nat)
    requires k < |list|
  {
    Load(mem, page + list[k]) == NextFree(page, list, k)
  }

  predicate InPage(o: nat, size: nat)
    requires size > 0
  {
    o < PAGE && o % size == 0
  }

  /**
   * The free list of a page: starting at offset, the links in memory visit exactly the blocks at the offsets in
   * list, all inside the page and aligned to the block size, none twice.
   */
  ghost predicate FreeChain(mem: Memory, page: nat, size: nat, list: seq<nat>, offset: nat)
    requires size > 0
  {
    && NoDup(list) && offset == (if list == [] then INVALID else list[0])
    && (forall k | 0 <= k < |list| :: InPage(list[k], size))
    && (forall k: nat | k < |list| :: LinkAt(mem, page, list, k))
  }

  ghost predicate PageOk(mem: Memory, p: Pageref, list: seq<nat>) {
    && BlockType(p.pab) < NSIZES && PageAddr(p.pab) > 0 && p.nfree == |list|
    && FreeChain(mem, PageAddr(p.pab), Size(BlockType(p.pab)), list, p.offset)
  }

  /** Two blocks of a page, or blocks of two pages, do not overlap. */
  lemma BlocksApart(o: nat, o': nat, size: nat)
    requires size > 0 && o % size == 0 && o' % size == 0 && o != o'
    ensures o + size <= o' || o' + size <= o
  {
    assert o == size * (o / size) && o' == size * (o' / size);
    if o < o' {
      assert o / size + 1 <= o' / size;
      assert size * (o / size + 1) <= size * (o' / size);
    } else {
      assert o' / size + 1 <= o / size;
      assert size * (o' / size + 1) <= size * (o / size);
    }
  }

  lemma BlockInPage(o: nat, b: nat)
    requires b < NSIZES && o < PAGE && o % Size(b) == 0
    ensures o + Size(b) <= PAGE
  {
    if o + Size(b) > PAGE {
      assert PAGE % Size(b) == 0;
      BlocksApart(o, PAGE, Size(b));
    }
  }

  lemma PagesApart(p: nat, q: nat)
    requires p % PAGE == 0 && q % PAGE == 0 && p != q
    ensures p + PAGE <= q || q + PAGE <= p
  {
  }

  /** Taking the first block off a free list. */
  lemma ChainTail(mem: Memory, page: nat, size: nat, list: seq<nat>, offset: nat, tail: seq<nat>)
    requires size > 0 && FreeChain(mem, page, size, list, offset) && list != [] && tail == list[1..]
    ensures FreeChain(mem, page, size, tail, if tail == [] then INVALID else tail[0])
    ensures Load(mem, page + offset) == if tail == [] then 0 else page + tail[0]
    ensures list[0] !in tail
  {
    hide InPage;
    hide Load;
    assert LinkAt(mem, page, list, 0);
    forall k: nat | k < |tail|
      ensures LinkAt(mem, page, tail, k)
    {
      assert tail[k] == list[k + 1] && LinkAt(mem, page, list, k + 1);
    }
  }

  /** Putting a block in front of a free list. */
  lemma ChainPush(mem: Memory, mem': Memory, page: nat, size: nat, list: seq<nat>, offset: nat, o: nat)
    requires size > 0 && FreeChain(mem, page, size, list, offset) && o !in list && InPage(o, size)
    requires SameOutside(mem, mem', page + o, page + o + size)
    requires Load(mem', page + o) == if offset == INVALID then 0 else page + offset
    ensures FreeChain(mem', page, size, [o] + list, o)
  {
    hide Load;
    var list' := [o] + list;
    assert list != [] ==> InPage(list[0], size);
    forall k: nat | k < |list'|
      ensures LinkAt(mem', page, list', k)
    {
      if k > 0 {
        BlocksApart(list[k - 1], o, size);
        assert LinkAt(mem, page, list, k - 1);
        assert NextFree(page, list', k) == NextFree(page, list, k - 1);
      }
    }
  }

  /** Writes outside a page leave its free list alone. */
  lemma ChainFrame(mem: Memory, mem': Memory, page: nat, size: nat, list: seq<nat>, offset: nat, lo: nat, hi: nat)
    requires size > 0 && FreeChain(mem, page, size, list, offset) && SameOutside(mem, mem', lo, hi)
    requires hi <= page || page + PAGE <= lo
    ensures FreeChain(mem', page, size, list, offset)
  {
    forall k: nat | k < |list|
      ensures LinkAt(mem', page, list, k)
    {
      assert InPage(list[k], size) && LinkAt(mem, page, list, k);
    }
  }

  /** So do writes inside a block that is not free. */
  lemma ChainFrameBlock(mem: Memory, mem': Memory, page: nat, size: nat, list: seq<nat>, offset: nat, o: nat)
    requires size > 0 && FreeChain(mem, page, size, list, offset) && o % size == 0 && o !in list
    requires SameOutside(mem, mem', page + o, page + o + size)
    ensures FreeChain(mem', page, size, list, offset)
  {
    forall k: nat | k < |list|
      ensures LinkAt(mem', page, list, k)
    {
      BlocksApart(list[k], o, size);
      assert LinkAt(mem, page, list, k);
    }
  }

  function BlockOffset(k: nat, size: nat): nat {
    k * size
  }

  /** The offsets of a fresh page's blocks, last first. */
  function Descending(n: nat, size: nat): (list: seq<nat>)
    ensures |list| == n
  {
    seq(n, k requires 0 <= k < n => BlockOffset(n - 1 - k, size))
  }

  /**
   * The allocator's state. The last seven fields are for the proof: the page lists and free lists as sequences,
   * the page entry of each live block, the pages out of the page supplier, those of them in the hands of code
   * between alloc_kpages or free_kpages and the heap, and those of large allocations.
   */
  datatype Heap = Heap(prs: seq<Pageref>, inuse: seq<Word>, sizebases: seq<int>, allbase: int, mem: Memory,
                       all: seq<nat>, same: seq<seq<nat>>, free: seq<seq<nat>>, live: map<nat, nat>,
                       out: set<nat>, hand: set<nat>, lent: set<nat>)

  predicate TableOk(h: Heap) {
    && |h.prs| == |h.free| == NPAGEREFS && |h.inuse| == INUSE_WORDS && |h.sizebases| == |h.same| == NSIZES
    && forall k | 0 <= k < |h.all| :: h.all[k] < NPAGEREFS
  }

  function Type(h: Heap, i: nat): nat
    requires i < |h.prs|
  {
    BlockType(h.prs[i].pab)
  }

  function PageOf(h: Heap, i: nat): nat
    requires i < |h.prs|
  {
    PageAddr(h.prs[i].pab)
  }

  /** The in-use map, the list of all pages and the lists by size are about the same entries. */
  ghost predicate ListsOk(h: Heap)
    requires TableOk(h)
  {
    && Linked(h.allbase, h.prs, false, h.all) && (forall i: nat | i < NPAGEREFS :: i in h.all <==> InUse(h.inuse, i))
    && (forall b: nat | b < NSIZES :: Linked(h.sizebases[b], h.prs, true, h.same[b]))
    && (forall b: nat, i: nat | b < NSIZES && i < NPAGEREFS :: i in h.same[b] <==> i in h.all && Type(h, i) == b)
    && (forall b: nat, i: nat | b < NSIZES && i in h.same[b] :: i < NPAGEREFS)
  }

  ghost predicate ChainsOk(h: Heap)
    requires TableOk(h)
  {
    forall i: nat | i in h.all :: PageOk(h.mem, h.prs[i], h.free[i])
  }

  ghost predicate ApartOk(h: Heap)
    requires TableOk(h)
  {
    forall i: nat, j: nat | i in h.all && j in h.all && PageOf(h, i) == PageOf(h, j) :: i == j
  }

  /** The block at offset o of entry i's page is either free or live. */
  predicate BlockOk(h: Heap, i: nat, o: nat)
    requires TableOk(h) && i < NPAGEREFS
  {
    o in h.free[i] <==> PageOf(h, i) + o !in h.live
  }

  /** A live address is a block of the entry it is recorded with. */
  predicate LiveHome(h: Heap, a: nat)
    requires TableOk(h) && a in h.live
  {
    && h.live[a] in h.all && Type(h, h.live[a]) < NSIZES && PageOf(h, h.live[a]) <= a
    && InPage(a - PageOf(h, h.live[a]), Size(Type(h, h.live[a])))
  }

  /** Every block of every page is free or live, never both; every live block is one of these. */
  ghost predicate LiveOk(h: Heap)
    requires TableOk(h)
  {
    && (forall i: nat, o: nat | i in h.all && Type(h, i) < NSIZES && InPage(o, Size(Type(h, i))) :: BlockOk(h, i, o))
    && (forall a: nat | a in h.live :: LiveHome(h, a))
  }

  ghost predicate IsHeapPage(h: Heap, p: nat)
    requires TableOk(h)
  {
    exists i: nat :: i in h.all && PageOf(h, i) == p
  }

  /** Every page out of the supplier is a heap page, in somebody's hands or lent whole, and only one of these. */
  ghost predicate SupplyOk(h: Heap)
    requires TableOk(h)
  {
    && (forall i: nat | i in h.all :: PageOf(h, i) in h.out && PageOf(h, i) !in h.hand && PageOf(h, i) !in h.lent)
    && h.hand <= h.out && h.lent <= h.out && h.hand !! h.lent && (forall p | p in h.out :: p % PAGE == 0 && p > 0)
    && (forall p | p in h.out && p !in h.hand && p !in h.lent :: IsHeapPage(h, p))
  }

  ghost predicate Inv0(h: Heap) {
    TableOk(h) && ListsOk(h) && ChainsOk(h) && ApartOk(h) && LiveOk(h) && SupplyOk(h)
  }

  /** Each page has a live block: a page with none has gone back to the supplier. */
  ghost predicate Busy(h: Heap)
    requires TableOk(h)
  {
    forall i: nat | i in h.all && Type(h, i) < NSIZES :: |h.free[i]| < PerPage(Type(h, i))
  }

  ghost predicate Inv(h: Heap) {
    Inv0(h) && Busy(h)
  }

  /** Where a live block is. */
  lemma LiveAt(h: Heap, a: nat)
    requires Inv0(h) && a in h.live
    ensures h.live[a] in h.all && h.live[a] < |h.prs| && Type(h, h.live[a]) < NSIZES
    ensures PageOf(h, h.live[a]) <= a && InPage(a - PageOf(h, h.live[a]), Size(Type(h, h.live[a])))
    ensures PageOf(h, h.live[a]) % PAGE == 0
  {
    hide ListsOk;
    hide ChainsOk;
    hide ApartOk;
    hide BlockOk;
    hide InPage;
    hide Size;
    assert LiveHome(h, a);
  }

  lemma ApartAt(h: Heap, i: nat, j: nat)
    requires Inv0(h) && i in h.all && j in h.all && i != j
    ensures i < |h.prs| && j < |h.prs| && PageOf(h, i) != PageOf(h, j)
  {
    hide ListsOk;
    hide ChainsOk;
    hide LiveOk;
    hide SupplyOk;
    hide PageAddr;
  }

  lemma ApartInPage(p: nat, a: nat, a': nat, b: nat)
    requires b < NSIZES && p <= a && p <= a' && InPage(a - p, Size(b)) && InPage(a' - p, Size(b)) && a != a'
    ensures a + Size(b) <= a' || a' + Size(b) <= a
  {
    hide Size;
    BlocksApart(a - p, a' - p, Size(b));
  }

  lemma ApartAcross(p: nat, q: nat, a: nat, a': nat, b: nat, b': nat)
    requires b < NSIZES && b' < NSIZES && p % PAGE == 0 && q % PAGE == 0 && p != q
    requires p <= a && q <= a' && InPage(a - p, Size(b)) && InPage(a' - q, Size(b'))
    ensures a + Size(b) <= a' || a' + Size(b') <= a
  {
    hide Size;
    BlockInPage(a - p, b);
    BlockInPage(a' - q, b');
    PagesApart(p, q);
  }

  lemma BlockAddrAligned(p: nat, a: nat, b: nat)
    requires b < NSIZES && p % PAGE == 0 && p <= a && InPage(a - p, Size(b))
    ensures a % 16 == 0
  {
    hide Size;
    BlockAligned(a - p, b);
    SumAligned(p, a - p);
  }

  lemma SumAligned(p: nat, o: nat)
    requires p % PAGE == 0 && o % 16 == 0
    ensures (p + o) % 16 == 0
  {
    var m, n := p / PAGE, o / 16;
    assert p + o == 16 * (256 * m + n);
  }

  /** Live blocks do not overlap, are aligned to 16 bytes and lie within heap pages. */
  lemma LiveApart(h: Heap, a: nat, a': nat)
    requires Inv0(h) && a in h.live && a' in h.live && a != a'
    ensures h.live[a] < |h.prs| && h.live[a'] < |h.prs| && Type(h, h.live[a]) < NSIZES && Type(h, h.live[a']) < NSIZES
    ensures a + Size(Type(h, h.live[a])) <= a' || a' + Size(Type(h, h.live[a'])) <= a
    ensures a % 16 == 0
  {
    hide Inv0;
    hide Size;
    hide PageOf;
    hide Type;
    hide InPage;
    LiveAt(h, a);
    LiveAt(h, a');
    var i, j := h.live[a], h.live[a'];
    BlockAddrAligned(PageOf(h, i), a, Type(h, i));
    if i == j {
      ApartInPage(PageOf(h, i), a, a', Type(h, i));
    } else {
      ApartAt(h, i, j);
      ApartAcross(PageOf(h, i), PageOf(h, j), a, a', Type(h, i), Type(h, j));
    }
  }

  lemma BlockAligned(o: nat, b: nat)
    requires b < NSIZES && o % Size(b) == 0
    ensures o % 16 == 0
  {
    var s := Size(b);
    assert o == s * (o / s);
    assert s == 16 * (s / 16);
    assert o == 16 * ((s / 16) * (o / s));
  }

  lemma FreeAt(h: Heap, i: nat, k: nat)
    requires Inv0(h) && i in h.all && k < |h.free[i]|
    ensures i < |h.prs| && Type(h, i) < NSIZES && InPage(h.free[i][k], Size(Type(h, i)))
  {
    hide ListsOk;
    hide ApartOk;
    hide LiveOk;
    hide SupplyOk;
    hide InPage;
    hide LinkAt;
    hide Size;
    assert PageOk(h.mem, h.prs[i], h.free[i]);
  }

  /** A block that is live is on no free list. */
  lemma LiveNotFree(h: Heap, a: nat, i: nat, k: nat)
    requires Inv0(h) && a in h.live && i in h.all && k < |h.free[i]|
    ensures PageOf(h, i) + h.free[i][k] != a
  {
    hide ListsOk;
    hide ChainsOk;
    hide ApartOk;
    hide SupplyOk;
    hide InPage;
    hide Size;
    hide PageAddr;
    hide BlockOk;
    hide LiveHome;
    FreeAt(h, i, k);
    var o := h.free[i][k];
    assert o in h.free[i] && BlockOk(h, i, o);
    NotLive(h, i, o);
  }

  lemma NotLive(h: Heap, i: nat, o: nat)
    requires TableOk(h) && i < NPAGEREFS && BlockOk(h, i, o)
    ensures o in h.free[i] <==> PageOf(h, i) + o !in h.live
  {
  }

  /** The heap as its users see it: the live blocks and their sizes. */
  function Blocks(h: Heap): map<nat, nat> {
    map a | a in h.live :: if h.live[a] < |h.prs| && Type(h, h.live[a]) < NSIZES then Size(Type(h, h.live[a])) else 0
  }
}
