/** How each step of the subpage allocator keeps the heap invariant. */
module KheapSteps {
  import opened Common
  import opened PageRefs
  import opened Kheap

  /** Two heaps with the same pages on the same lists. */
  ghost predicate SamePages(h: Heap, h': Heap) {
    && TableOk(h) && TableOk(h') && h'.all == h.all && h'.same == h.same && h'.inuse == h.inuse
    && h'.sizebases == h.sizebases && h'.allbase == h.allbase && h'.out == h.out && h'.hand == h.hand
    && h'.lent == h.lent
    && forall i | 0 <= i < NPAGEREFS ::
         h'.prs[i].nextSame == h.prs[i].nextSame
         && h'.prs[i].nextAll == h.prs[i].nextAll && h'.prs[i].pab == h.prs[i].pab
  }

  lemma LinkedFrame(head: int, prs: seq<Pageref>, prs': seq<Pageref>, same: bool, list: seq<nat>)
    requires Linked(head, prs, same, list) && |prs'| == |prs|
    requires forall i: nat | i in list && i < |prs| :: Next(prs'[i], same) == Next(prs[i], same)
    ensures Linked(head, prs', same, list)
  {
  }

  lemma SameLists(h: Heap, h': Heap)
    requires SamePages(h, h') && ListsOk(h)
    ensures ListsOk(h')
  {
    hide Linked;
    hide InUse;
    hide BlockType;
    LinkedFrame(h.allbase, h.prs, h'.prs, false, h.all);
    forall b: nat | b < NSIZES
      ensures Linked(h'.sizebases[b], h'.prs, true, h'.same[b])
    {
      LinkedFrame(h.sizebases[b], h.prs, h'.prs, true, h.same[b]);
    }
    assert forall i: nat | i < NPAGEREFS :: Type(h', i) == Type(h, i);
  }

  lemma SameSupply(h: Heap, h': Heap)
    requires SamePages(h, h') && ApartOk(h) && SupplyOk(h)
    ensures ApartOk(h') && SupplyOk(h')
  {
    hide InUse;
    hide PageAddr;
    hide IsHeapPage;
    assert forall i: nat | i < NPAGEREFS :: PageOf(h', i) == PageOf(h, i);
    forall p | p in h'.out && p !in h'.hand && p !in h'.lent
      ensures IsHeapPage(h', p)
    {
      HeapPageStays(h, h', p, NPAGEREFS);
    }
  }

  /** A heap page stays one when its entry, other than x, stays listed with the same page. */
  lemma HeapPageStays(h: Heap, h': Heap, p: nat, x: nat)
    requires TableOk(h) && TableOk(h') && IsHeapPage(h, p)
    requires forall i: nat | i in h.all && i != x :: i in h'.all && PageOf(h', i) == PageOf(h, i)
    requires x in h.all ==> PageOf(h, x) != p
    ensures IsHeapPage(h', p)
  {
    var i: nat :| i in h.all && PageOf(h, i) == p;
    assert i in h'.all && PageOf(h', i) == p;
  }

  lemma SamePagesKeep(h: Heap, h': Heap)
    requires SamePages(h, h') && ListsOk(h) && ApartOk(h) && SupplyOk(h)
    ensures ListsOk(h') && ApartOk(h') && SupplyOk(h')
  {
    hide ListsOk;
    hide ApartOk;
    hide SupplyOk;
    SameLists(h, h');
    SameSupply(h, h');
  }

  /** An address in one page is not an address in another. */
  lemma OtherPage(h: Heap, i: nat, j: nat, o: nat, o': nat)
    requires TableOk(h) && ApartOk(h) && i in h.all && j in h.all && i != j && o < PAGE && o' < PAGE
    ensures PageOf(h, i) + o != PageOf(h, j) + o'
  {
    PagesApart(PageOf(h, i), PageOf(h, j));
  }

  /** The free list of entry i becomes list' and block o moves between it and the live blocks. */
  ghost predicate Toggled(h: Heap, h': Heap, i: nat, o: nat) {
    && TableOk(h) && TableOk(h') && i in h.all && h'.all == h.all
    && (forall j | 0 <= j < NPAGEREFS :: h'.prs[j].pab == h.prs[j].pab && (j != i ==> h'.free[j] == h.free[j]))
    && Type(h, i) < NSIZES && InPage(o, Size(Type(h, i)))
    && (forall o' :: o' in h'.free[i] <==> if o' == o then o !in h.free[i] else o' in h.free[i])
    && h'.live == if o in h.free[i] then h.live[PageOf(h, i) + o := i] else h.live - {PageOf(h, i) + o}
  }

  lemma ToggleBlock(h: Heap, h': Heap, i: nat, o: nat, j: nat, o': nat)
    requires Toggled(h, h', i, o) && ApartOk(h) && j in h.all && o' < PAGE && BlockOk(h, j, o')
    ensures BlockOk(h', j, o')
  {
    hide InPage;
    hide Size;
    hide PageAddr;
    hide BlockType;
    if j != i {
      InPageBound(o, Size(Type(h, i)));
      OtherPage(h, i, j, o, o');
    }
  }

  lemma ToggleHome(h: Heap, h': Heap, i: nat, o: nat, x: nat)
    requires Toggled(h, h', i, o) && x in h'.live && (x in h.live && x != PageOf(h, i) + o ==> LiveHome(h, x))
    ensures LiveHome(h', x)
  {
    hide InPage;
    hide Size;
    hide PageAddr;
    hide BlockType;
  }

  lemma ToggleLive(h: Heap, h': Heap, i: nat, o: nat)
    requires Toggled(h, h', i, o) && LiveOk(h) && ApartOk(h)
    ensures LiveOk(h')
  {
    hide InPage;
    hide Size;
    hide PageAddr;
    hide BlockType;
    hide BlockOk;
    hide LiveHome;
    hide ApartOk;
    assert forall j: nat | j < NPAGEREFS :: Type(h', j) == Type(h, j);
    forall j: nat, o': nat | j in h'.all && Type(h', j) < NSIZES && InPage(o', Size(Type(h', j)))
      ensures BlockOk(h', j, o')
    {
      InPageBound(o', Size(Type(h, j)));
      ToggleBlock(h, h', i, o, j, o');
    }
    forall x: nat | x in h'.live
      ensures LiveHome(h', x)
    {
      ToggleHome(h, h', i, o, x);
    }
  }

  lemma InPageBound(o: nat, size: nat)
    requires size > 0 && InPage(o, size)
    ensures o < PAGE
  {
  }

  /** Taking the first free block of a page. */
  lemma PopKeeps(h: Heap, h': Heap, i: nat, tail: seq<nat>)
    requires Inv0(h) && i in h.all && h.free[i] != [] && tail == h.free[i][1..]
    requires h' == h.(prs := h.prs[i := h.prs[i].(nfree := |tail|, offset := if tail == [] then INVALID else tail[0])],
                      free := h.free[i := tail], live := h.live[PageOf(h, i) + h.free[i][0] := i])
    ensures Inv0(h')
  {
    hide Linked;
    hide InUse;
    hide ListsOk;
    hide ApartOk;
    hide LiveOk;
    hide SupplyOk;
    hide FreeChain;
    hide PageAddr;
    hide BlockType;
    hide InPage;
    hide Size;
    assert PageOk(h.mem, h.prs[i], h.free[i]);
    ChainTail(h.mem, PageOf(h, i), Size(Type(h, i)), h.free[i], h.prs[i].offset, tail);
    SamePagesKeep(h, h');
    FreeAt(h, i, 0);
    assert h.free[i] == [h.free[i][0]] + tail;
    ToggleLive(h, h', i, h.free[i][0]);
  }

  /** Writes confined to one block of page i leave every other page's free list alone. */
  lemma ChainsElsewhere(h: Heap, mem': Memory, i: nat, lo: nat, hi: nat, j: nat)
    requires Inv0(h) && i in h.all && j in h.all && i != j && SameOutside(h.mem, mem', lo, hi)
    requires PageOf(h, i) <= lo && hi <= PageOf(h, i) + PAGE
    ensures PageOk(mem', h.prs[j], h.free[j])
  {
    hide ListsOk;
    hide LiveOk;
    hide SupplyOk;
    hide FreeChain;
    hide SameOutside;
    hide Size;
    assert PageOk(h.mem, h.prs[j], h.free[j]);
    ApartAt(h, i, j);
    PagesApart(PageOf(h, i), PageOf(h, j));
    ChainFrame(h.mem, mem', PageOf(h, j), Size(Type(h, j)), h.free[j], h.prs[j].offset, lo, hi);
  }

  /** A free puts the block in front of its page's free list. */
  lemma PushKeeps(h: Heap, h': Heap, i: nat, o: nat, mem': Memory)
    requires Inv0(h) && i in h.all && Type(h, i) < NSIZES && InPage(o, Size(Type(h, i))) && o !in h.free[i]
    requires SameOutside(h.mem, mem', PageOf(h, i) + o, PageOf(h, i) + o + Size(Type(h, i)))
    requires Load(mem', PageOf(h, i) + o) == if h.prs[i].offset == INVALID then 0 else PageOf(h, i) + h.prs[i].offset
    requires h' == h.(prs := h.prs[i := h.prs[i].(nfree := |h.free[i]| + 1, offset := o)], mem := mem',
                      free := h.free[i := [o] + h.free[i]], live := h.live - {PageOf(h, i) + o})
    ensures Inv0(h')
  {
    hide Linked;
    hide InUse;
    hide ListsOk;
    hide ApartOk;
    hide LiveOk;
    hide SupplyOk;
    hide FreeChain;
    hide SameOutside;
    hide PageAddr;
    hide BlockType;
    hide InPage;
    hide Size;
    assert PageOk(h.mem, h.prs[i], h.free[i]);
    ChainPush(h.mem, mem', PageOf(h, i), Size(Type(h, i)), h.free[i], h.prs[i].offset, o);
    SamePagesKeep(h, h');
    InPageBound(o, Size(Type(h, i)));
    PageBlock(o, Type(h, i));
    forall j: nat | j in h.all && j != i
      ensures PageOk(mem', h.prs[j], h.free[j])
    {
      ChainsElsewhere(h, mem', i, PageOf(h, i) + o, PageOf(h, i) + o + Size(Type(h, i)), j);
    }
    ToggleLive(h, h', i, o);
  }

  lemma PageBlock(o: nat, b: nat)
    requires b < NSIZES && InPage(o, Size(b))
    ensures o + Size(b) <= PAGE
  {
    hide Size;
    BlockInPage(o, b);
  }

  /** The owner of a live block may write anything in it. */
  lemma StoreKeeps(h: Heap, h': Heap, a: nat, mem': Memory)
    requires Inv0(h) && a in h.live && h' == h.(mem := mem') && h.live[a] < |h.prs| && Type(h, h.live[a]) < NSIZES
    requires SameOutside(h.mem, mem', a, a + Size(Type(h, h.live[a])))
    ensures Inv0(h')
  {
    hide Linked;
    hide InUse;
    hide FreeChain;
    hide SameOutside;
    hide PageAddr;
    hide BlockType;
    hide InPage;
    hide Size;
    hide ListsOk;
    hide ApartOk;
    hide SupplyOk;
    hide BlockOk;
    hide LiveHome;
    var i := h.live[a];
    LiveAt(h, a);
    var o := a - PageOf(h, i);
    assert PageOk(h.mem, h.prs[i], h.free[i]) && BlockOk(h, i, o);
    NotLive(h, i, o);
    SamePagesKeep(h, h');
    StoreLive(h, h');
    BlockIsMultiple(o, Size(Type(h, i)));
    ChainFrameBlock(h.mem, mem', PageOf(h, i), Size(Type(h, i)), h.free[i], h.prs[i].offset, o);
    PageBlock(o, Type(h, i));
    forall j: nat | j in h.all && j != i
      ensures PageOk(mem', h.prs[j], h.free[j])
    {
      ChainsElsewhere(h, mem', i, a, a + Size(Type(h, i)), j);
    }
  }

  lemma StoreBlock(h: Heap, h': Heap, i: nat, o: nat)
    requires TableOk(h) && h' == h.(mem := h'.mem) && i in h.all && BlockOk(h, i, o)
    ensures BlockOk(h', i, o)
  {
  }

  lemma StoreHome(h: Heap, h': Heap, a: nat)
    requires TableOk(h) && h' == h.(mem := h'.mem) && a in h.live && LiveHome(h, a)
    ensures LiveHome(h', a)
  {
  }

  lemma StoreLive(h: Heap, h': Heap)
    requires TableOk(h) && LiveOk(h) && h' == h.(mem := h'.mem)
    ensures TableOk(h') && LiveOk(h')
  {
    hide InPage;
    hide Size;
    hide PageAddr;
    hide BlockType;
    hide BlockOk;
    hide LiveHome;
    forall i: nat, o: nat | i in h'.all && Type(h', i) < NSIZES && InPage(o, Size(Type(h', i)))
      ensures BlockOk(h', i, o)
    {
      assert Type(h', i) == Type(h, i);
      StoreBlock(h, h', i, o);
    }
    forall a: nat | a in h'.live
      ensures LiveHome(h', a)
    {
      StoreHome(h, h', a);
    }
  }

  lemma BlockIsMultiple(o: nat, size: nat)
    requires size > 0 && InPage(o, size)
    ensures o % size == 0
  {
  }

  // A fresh page.

  lemma PackedPage(page: nat, b: nat)
    requires page % PAGE == 0 && b < NSIZES
    ensures PageAddr(page + b) == page && BlockType(page + b) == b
  {
  }

  lemma DescendingAll(b: nat, o: nat)
    requires b < NSIZES && InPage(o, Size(b))
    ensures o in Descending(PerPage(b), Size(b))
  {
    hide Size;
    var n, size := PerPage(b), Size(b);
    var k := o / size;
    BlockNumber(o, b);
    assert Descending(n, size)[n - 1 - k] == BlockOffset(k, size) == k * size;
  }

  /** What adding page entry i of type b does to the lists. */
  ghost predicate Entered(h: Heap, h': Heap, i: nat, b: nat, page: nat) {
    && TableOk(h) && TableOk(h') && i < NPAGEREFS && i !in h.all && b < NSIZES && page % PAGE == 0 && page in h.hand
    && h'.prs[i].pab == page + b && h'.prs[i].nextSame == h.sizebases[b] && h'.prs[i].nextAll == h.allbase
    && (forall j | 0 <= j < NPAGEREFS && j != i :: h'.prs[j] == h.prs[j] && h'.free[j] == h.free[j])
    && h'.all == [i] + h.all && h'.same == h.same[b := [i] + h.same[b]]
    && h'.allbase == i && h'.sizebases == h.sizebases[b := i]
    && (forall j: nat | j < NPAGEREFS :: InUse(h'.inuse, j) <==> j == i || InUse(h.inuse, j))
    && h'.live == h.live && h'.out == h.out && h'.hand == h.hand - {page} && h'.lent == h.lent
  }

  lemma EnteredLists(h: Heap, h': Heap, i: nat, b: nat, page: nat)
    requires Entered(h, h', i, b, page) && ListsOk(h)
    ensures ListsOk(h')
  {
    hide Linked;
    hide InUse;
    hide PageAddr;
    hide BlockType;
    PackedPage(page, b);
    assert i !in h.same[b];
    Pushed(h.allbase, h.prs, h'.prs, false, h.all, i);
    Pushed(h.sizebases[b], h.prs, h'.prs, true, h.same[b], i);
    forall c: nat | c < NSIZES
      ensures Linked(h'.sizebases[c], h'.prs, true, h'.same[c])
    {
      if c != b {
        assert i !in h.same[c];
        LinkedFrame(h.sizebases[c], h.prs, h'.prs, true, h.same[c]);
      }
    }
    assert forall j: nat | j < NPAGEREFS && j != i :: Type(h', j) == Type(h, j);
  }

  lemma IsEntryPage(h: Heap, i: nat)
    requires TableOk(h) && i in h.all
    ensures IsHeapPage(h, PageOf(h, i))
  {
  }

  /** The new page is none of the heap's other pages. */
  lemma EnteredApart(h: Heap, h': Heap, i: nat, b: nat, page: nat)
    requires Entered(h, h', i, b, page) && ApartOk(h) && SupplyOk(h)
    ensures ApartOk(h') && SupplyOk(h')
  {
    hide InUse;
    hide PageAddr;
    hide BlockType;
    hide IsHeapPage;
    PackedPage(page, b);
    assert forall j: nat | j < NPAGEREFS && j != i :: PageOf(h', j) == PageOf(h, j);
    IsEntryPage(h', i);
    forall p | p in h'.out && p !in h'.hand && p !in h'.lent && p != page
      ensures IsHeapPage(h', p)
    {
      HeapPageStays(h, h', p, i);
    }
  }

  /** No live block lies in a page that is in someone's hands. */
  lemma HandNotLive(h: Heap, page: nat, o: nat)
    requires Inv0(h) && page in h.hand && o < PAGE
    ensures page + o !in h.live
  {
    hide ListsOk;
    hide ChainsOk;
    hide ApartOk;
    hide LiveOk;
    hide Size;
    if page + o in h.live {
      var i := h.live[page + o];
      LiveAt(h, page + o);
      InPageBound(page + o - PageOf(h, i), Size(Type(h, i)));
      PagesApart(page, PageOf(h, i));
    }
  }

  lemma EnteredBlock(h: Heap, h': Heap, i: nat, b: nat, page: nat, j: nat, o: nat)
    requires Entered(h, h', i, b, page) && Inv0(h) && h'.free[i] == Descending(PerPage(b), Size(b))
    requires j in h'.all && Type(h', j) < NSIZES && InPage(o, Size(Type(h', j))) && (j != i ==> BlockOk(h, j, o))
    ensures BlockOk(h', j, o)
  {
    hide Inv0;
    hide InUse;
    hide Size;
    hide Descending;
    PackedPage(page, b);
    if j == i {
      DescendingAll(b, o);
      InPageBound(o, Size(b));
      HandNotLive(h, page, o);
    }
  }

  lemma EnteredHome(h: Heap, h': Heap, i: nat, b: nat, page: nat, a: nat)
    requires Entered(h, h', i, b, page) && a in h.live && LiveHome(h, a)
    ensures LiveHome(h', a)
  {
    hide InUse;
    hide Size;
    hide InPage;
    hide PageAddr;
    hide BlockType;
  }

  lemma EnteredLive(h: Heap, h': Heap, i: nat, b: nat, page: nat)
    requires Entered(h, h', i, b, page) && Inv0(h) && h'.free[i] == Descending(PerPage(b), Size(b))
    ensures LiveOk(h')
  {
    hide ListsOk;
    hide ChainsOk;
    hide ApartOk;
    hide SupplyOk;
    hide InPage;
    hide InUse;
    hide Size;
    hide PageAddr;
    hide BlockType;
    hide BlockOk;
    hide LiveHome;
    hide Descending;
    forall j: nat, o: nat | j in h'.all && Type(h', j) < NSIZES && InPage(o, Size(Type(h', j)))
      ensures BlockOk(h', j, o)
    {
      if j != i {
        assert Type(h', j) == Type(h, j);
      }
      EnteredBlock(h, h', i, b, page, j, o);
    }
    forall a: nat | a in h'.live
      ensures LiveHome(h', a)
    {
      EnteredHome(h, h', i, b, page, a);
    }
  }

  lemma EnteredKeeps(h: Heap, h': Heap, i: nat, b: nat, page: nat)
    requires Entered(h, h', i, b, page) && Inv0(h) && h'.free[i] == Descending(PerPage(b), Size(b))
    requires SameOutside(h.mem, h'.mem, page, page + PAGE) && PageOk(h'.mem, h'.prs[i], h'.free[i])
    ensures Inv0(h')
  {
    hide ListsOk;
    hide LiveOk;
    hide SameOutside;
    hide PageOk;
    hide InPage;
    hide InUse;
    hide Size;
    hide PageAddr;
    hide BlockType;
    hide Descending;
    EnteredLists(h, h', i, b, page);
    EnteredApart(h, h', i, b, page);
    EnteredLive(h, h', i, b, page);
    forall j: nat | j in h.all
      ensures PageOk(h'.mem, h'.prs[j], h'.free[j])
    {
      PageFrame(h, h'.mem, j, page);
    }
  }

  lemma PageFrame(h: Heap, mem': Memory, j: nat, page: nat)
    requires Inv0(h) && j in h.all && page % PAGE == 0 && (page in h.hand || page in h.lent)
    requires SameOutside(h.mem, mem', page, page + PAGE)
    ensures PageOk(mem', h.prs[j], h.free[j])
  {
    hide ListsOk;
    hide LiveOk;
    hide ApartOk;
    hide FreeChain;
    hide SameOutside;
    hide Size;
    assert PageOk(h.mem, h.prs[j], h.free[j]);
    PagesApart(page, PageOf(h, j));
    ChainFrame(h.mem, mem', PageOf(h, j), Size(Type(h, j)), h.free[j], h.prs[j].offset, page, page + PAGE);
  }

  // A page whose blocks are all free.

  /** n distinct numbers below n are all of them. */
  lemma {:induction false} Pigeonhole(list: seq<nat>, n: nat, x: nat)
    requires NoDup(list) && |list| == n && x < n && forall k | 0 <= k < |list| :: list[k] < n
    ensures x in list
  {
    if n - 1 !in list {
      var init := list[..n - 1];
      var last := list[n - 1];
      assert last < n - 1;
      Pigeonhole(init, n - 1, last);
      assert false;
    } else if x != n - 1 {
      var k :| 0 <= k < n && list[k] == n - 1;
      RemoveElements(list, k);
      var rest := Remove(list, k);
      forall j | 0 <= j < |rest|
        ensures rest[j] < n - 1
      {
        assert rest[j] in rest;
      }
      Pigeonhole(rest, n - 1, x);
    }
  }

  /** A free list as long as the page has blocks holds every block. */
  lemma AllFree(mem: Memory, p: Pageref, list: seq<nat>, o: nat)
    requires PageOk(mem, p, list) && |list| == PerPage(BlockType(p.pab)) && InPage(o, Size(BlockType(p.pab)))
    ensures o in list
  {
    hide LinkAt;
    hide Size;
    var size, n := Size(BlockType(p.pab)), |list|;
    var blocks := seq(n, k requires 0 <= k < n => list[k] / size);
    forall k | 0 <= k < n
      ensures blocks[k] < n && list[k] == blocks[k] * size
    {
      BlockNumber(list[k], BlockType(p.pab));
    }
    BlockNumber(o, BlockType(p.pab));
    Pigeonhole(blocks, n, o / size);
    var k :| 0 <= k < n && blocks[k] == o / size;
    assert list[k] == o;
  }

  lemma BlockNumber(o: nat, b: nat)
    requires b < NSIZES && InPage(o, Size(b))
    ensures o == (o / Size(b)) * Size(b) && o / Size(b) < PerPage(b)
  {
    hide Size;
    var k, size, n := o / Size(b), Size(b), PerPage(b);
    assert o == k * size < n * size;
  }

  lemma NoneLive(h: Heap, i: nat, a: nat)
    requires Inv0(h) && i in h.all && Type(h, i) < NSIZES && |h.free[i]| == PerPage(Type(h, i)) && a in h.live
    ensures h.live[a] != i
  {
    hide ListsOk;
    hide ApartOk;
    hide SupplyOk;
    hide BlockOk;
    hide LiveHome;
    hide InPage;
    hide Size;
    hide PageOk;
    if h.live[a] == i {
      LiveAt(h, a);
      AllFree(h.mem, h.prs[i], h.free[i], a - PageOf(h, i));
      NotLive(h, i, a - PageOf(h, i));
    }
  }

  /** What releasing page entry i does to the lists, i being entry k of one and entry m of the other. */
  ghost predicate Left(h: Heap, h': Heap, i: nat, k: nat, m: nat) {
    && TableOk(h) && TableOk(h') && i in h.all && Type(h, i) < NSIZES && k < |h.all| && h.all[k] == i
    && m < |h.same[Type(h, i)]| && h.same[Type(h, i)][m] == i
    && h'.all == Remove(h.all, k) && h'.same == h.same[Type(h, i) := Remove(h.same[Type(h, i)], m)]
    && Linked(h'.allbase, h'.prs, false, h'.all)
    && Linked(h'.sizebases[Type(h, i)], h'.prs, true, h'.same[Type(h, i)])
    && (forall b | 0 <= b < NSIZES && b != Type(h, i) :: h'.sizebases[b] == h.sizebases[b])
    && (forall j: nat | j < NPAGEREFS :: h'.prs[j].pab == h.prs[j].pab && h'.prs[j].offset == h.prs[j].offset
          && h'.prs[j].nfree == h.prs[j].nfree
          && (j !in h.same[Type(h, i)] ==> h'.prs[j].nextSame == h.prs[j].nextSame))
    && (forall j: nat | j < NPAGEREFS :: InUse(h'.inuse, j) <==> j != i && InUse(h.inuse, j))
    && h'.mem == h.mem && h'.free == h.free && h'.live == h.live && h'.out == h.out && h'.lent == h.lent
    && h'.hand == h.hand + {PageOf(h, i)}
  }

  lemma LeftLists(h: Heap, h': Heap, i: nat, k: nat, m: nat)
    requires Left(h, h', i, k, m) && ListsOk(h)
    ensures ListsOk(h')
  {
    hide Linked;
    hide InUse;
    hide PageAddr;
    hide BlockType;
    hide Remove;
    LinkedNoDup(h.allbase, h.prs, false, h.all);
    RemoveElements(h.all, k);
    var t := Type(h, i);
    LinkedNoDup(h.sizebases[t], h.prs, true, h.same[t]);
    RemoveElements(h.same[t], m);
    assert forall j: nat | j < NPAGEREFS :: Type(h', j) == Type(h, j);
    forall b: nat | b < NSIZES
      ensures Linked(h'.sizebases[b], h'.prs, true, h'.same[b])
    {
      if b != t {
        forall j: nat | j in h.same[b]
          ensures j < NPAGEREFS && j !in h.same[t]
        {
          assert Type(h, j) == b;
        }
        LinkedFrame(h.sizebases[b], h.prs, h'.prs, true, h.same[b]);
      }
    }
  }

  lemma LinkedNoDup(head: int, prs: seq<Pageref>, same: bool, list: seq<nat>)
    requires Linked(head, prs, same, list)
    ensures NoDup(list)
  {
  }

  lemma LeftApart(h: Heap, h': Heap, i: nat, k: nat, m: nat)
    requires Left(h, h', i, k, m) && Inv0(h)
    ensures ApartOk(h') && SupplyOk(h') && ChainsOk(h') && forall j :: j in h'.all <==> j in h.all && j != i
  {
    hide Linked;
    hide InUse;
    hide PageAddr;
    hide BlockType;
    hide Remove;
    hide LiveOk;
    hide FreeChain;
    hide Size;
    hide IsHeapPage;
    LinkedNoDup(h.allbase, h.prs, false, h.all);
    RemoveElements(h.all, k);
    assert forall j: nat | j < NPAGEREFS :: PageOf(h', j) == PageOf(h, j);
    forall p | p in h'.out && p !in h'.hand && p !in h'.lent
      ensures IsHeapPage(h', p)
    {
      HeapPageStays(h, h', p, i);
    }
    forall j: nat | j in h'.all
      ensures PageOk(h'.mem, h'.prs[j], h'.free[j])
    {
      assert PageOk(h.mem, h.prs[j], h.free[j]);
    }
  }

  lemma LeftBlock(h: Heap, h': Heap, i: nat, k: nat, m: nat, j: nat, o: nat)
    requires Left(h, h', i, k, m) && j < NPAGEREFS && BlockOk(h, j, o)
    ensures BlockOk(h', j, o)
  {
    hide Linked;
    hide InUse;
    hide PageAddr;
  }

  lemma LeftHome(h: Heap, h': Heap, i: nat, k: nat, m: nat, a: nat)
    requires Left(h, h', i, k, m) && a in h.live && LiveHome(h, a) && h.live[a] in h'.all
    ensures LiveHome(h', a)
  {
    hide Linked;
    hide InUse;
    hide PageAddr;
    hide BlockType;
    hide InPage;
    hide Size;
  }

  lemma LeftKeeps(h: Heap, h': Heap, i: nat, k: nat, m: nat)
    requires Left(h, h', i, k, m) && Inv0(h) && |h.free[i]| == PerPage(Type(h, i))
    ensures Inv0(h') && forall j :: j in h'.all <==> j in h.all && j != i
  {
    hide ListsOk;
    hide ChainsOk;
    hide ApartOk;
    hide SupplyOk;
    hide InPage;
    hide InUse;
    hide Linked;
    hide Size;
    hide PageAddr;
    hide BlockType;
    hide BlockOk;
    hide LiveHome;
    LeftLists(h, h', i, k, m);
    LeftApart(h, h', i, k, m);
    forall j: nat, o: nat | j in h'.all && Type(h', j) < NSIZES && InPage(o, Size(Type(h', j)))
      ensures BlockOk(h', j, o)
    {
      assert Type(h', j) == Type(h, j);
      LeftBlock(h, h', i, k, m, j, o);
    }
    forall a: nat | a in h'.live
      ensures LiveHome(h', a)
    {
      NoneLive(h, i, a);
      LiveAt(h, a);
      LeftHome(h, h', i, k, m, a);
    }
  }

  /** Fewer than n distinct numbers below n leave one out. */
  lemma {:induction false} Missing(list: seq<nat>, n: nat) returns (x: nat)
    requires NoDup(list) && |list| < n && forall k | 0 <= k < |list| :: list[k] < n
    ensures x < n && x !in list
  {
    if n - 1 !in list {
      x := n - 1;
    } else {
      var k :| 0 <= k < |list| && list[k] == n - 1;
      RemoveElements(list, k);
      var rest := Remove(list, k);
      forall j | 0 <= j < |rest|
        ensures rest[j] < n - 1
      {
        assert rest[j] in rest;
      }
      x := Missing(rest, n - 1);
    }
  }

  /** A page whose free list is shorter than the page has a live block. */
  lemma SomeLive(h: Heap, i: nat) returns (a: nat)
    requires Inv0(h) && i in h.all && i < |h.prs| && Type(h, i) < NSIZES && |h.free[i]| < PerPage(Type(h, i))
    ensures a in h.live && PageOf(h, i) <= a < PageOf(h, i) + PAGE
  {
    hide ListsOk;
    hide ApartOk;
    hide SupplyOk;
    hide BlockOk;
    hide LiveHome;
    hide InPage;
    hide Size;
    hide PageOk;
    assert PageOk(h.mem, h.prs[i], h.free[i]);
    var o := FreeMissing(h.mem, h.prs[i], h.free[i]);
    InPageBound(o, Size(Type(h, i)));
    NotLive(h, i, o);
    a := PageOf(h, i) + o;
  }

  lemma FreeMissing(mem: Memory, p: Pageref, list: seq<nat>) returns (o: nat)
    requires PageOk(mem, p, list) && |list| < PerPage(BlockType(p.pab))
    ensures InPage(o, Size(BlockType(p.pab))) && o !in list
  {
    hide LinkAt;
    hide Size;
    hide PerPage;
    var b := BlockType(p.pab);
    var size, n := Size(b), |list|;
    var blocks := seq(n, k requires 0 <= k < n => list[k] / size);
    forall k | 0 <= k < n
      ensures blocks[k] < PerPage(b) && list[k] == blocks[k] * size
    {
      BlockNumber(list[k], b);
    }
    var x := Missing(blocks, PerPage(b));
    o := x * size;
    BlockAt(x, b);
    forall k | 0 <= k < n
      ensures list[k] != o
    {
      assert blocks[k] in blocks;
      DistinctProducts(blocks[k], x, size);
    }
  }

  lemma DistinctProducts(a: nat, b: nat, s: nat)
    requires a != b && s > 0
    ensures a * s != b * s
  {
    if a < b {
      assert (b - a) * s > 0;
    } else {
      assert (a - b) * s > 0;
    }
  }

  lemma BlockAt(i: nat, b: nat)
    requires b < NSIZES && i < PerPage(b)
    ensures InPage(i * Size(b), Size(b)) && i * Size(b) < PAGE
  {
    var s, n := Size(b), PerPage(b);
    assert i * s < n * s;
    if s == 16 {
      assert (i * 16) % 16 == 0;
    } else if s == 32 {
      assert (i * 32) % 32 == 0;
    } else if s == 64 {
      assert (i * 64) % 64 == 0;
    } else if s == 128 {
      assert (i * 128) % 128 == 0;
    } else if s == 256 {
      assert (i * 256) % 256 == 0;
    } else if s == 512 {
      assert (i * 512) % 512 == 0;
    } else if s == 1024 {
      assert (i * 1024) % 1024 == 0;
    } else {
      assert (i * 2048) % 2048 == 0;
    }
  }
}
