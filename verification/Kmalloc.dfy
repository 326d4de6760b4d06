/** kmalloc and kfree (kern/vm/kmalloc.c:377-633), region by region between acquisitions of its spinlock. */
module Kmalloc {
  import opened PageRefs
  import opened Kheap
  import opened KheapSteps

  class Allocator {
    var prs: seq<Pageref>
    var inuse: seq<Word>
    var sizebases: seq<int>
    var allbase: int
    var mem: Memory
    ghost var all: seq<nat>
    ghost var same: seq<seq<nat>>
    ghost var free: seq<seq<nat>>
    ghost var live: map<nat, nat>
    ghost var out: set<nat>
    ghost var hand: set<nat>
    ghost var lent: set<nat>
    ghost var big: map<nat, nat>  // large allocations and their lengths in pages

    ghost function Val(): Heap
      reads this
    {
      Heap(prs, inuse, sizebases, allbase, mem, all, same, free, live, out, hand, lent)
    }

    ghost predicate Valid()
      reads this
    {
      Inv(Val()) && BigOk(big, lent)
    }

    constructor (mem: Memory)
      ensures Valid() && Val() == EmptyHeap(mem) && Blocks(Val()) == map[] && big == map[]
    {
      prs := seq(NPAGEREFS, _ => Pageref(NONE, NONE, 0, INVALID, 0));
      inuse := seq(INUSE_WORDS, _ => seq(32, _ => false));
      sizebases := seq(NSIZES, _ => NONE);
      allbase := NONE;
      this.mem := mem;
      all, same, free, live := [], seq(NSIZES, _ => []), seq(NPAGEREFS, _ => []), map[];
      out, hand, lent, big := {}, {}, {}, map[];
    }

    /** The code at doalloc: take the first block of entry i's free list. */
    method Pop(i: nat) returns (ptr: nat)
      requires Inv0(Val()) && i in all && free[i] != []
      modifies `prs, `free, `live
      ensures Inv0(Val()) && PopEffect(old(Val()), Val(), i, ptr) && Popped(old(Val()), Val(), i, ptr)
    {
      hide Inv0;
      InTable(Val(), i);
      ghost var h, tail := Val(), free[i][1..];
      PopFacts(h, i, tail);
      assert prs[i].offset < PAGE;
      var prpage := PageAddr(prs[i].pab);
      ptr := prpage + prs[i].offset;
      var fl := Load(mem, ptr);
      var nfree := prs[i].nfree - 1;
      if fl != 0 {
        assert nfree > 0;
        assert fl - prpage < PAGE;
        prs := prs[i := prs[i].(nfree := nfree, offset := fl - prpage)];
      } else {
        assert nfree == 0;
        prs := prs[i := prs[i].(nfree := nfree, offset := INVALID)];
      }
      free := free[i := tail];
      live := live[ptr := i];
      PopKeeps(h, Val(), i, tail);
    }

    /** The first region of subpage_kmalloc: look for a page of this type with a free block. */
    method TryAlloc(b: nat) returns (ok: bool, ptr: nat)
      requires Valid() && b < NSIZES
      modifies `prs, `free, `live
      ensures Valid() && out == old(out) && hand == old(hand) && lent == old(lent) && big == old(big)
      ensures ok ==> Allocated(old(Val()), Val(), b, ptr)
      ensures !ok ==> Val() == old(Val()) && ptr == 0 && NoneFree(Val(), b)
      ensures Tried(old(Val()), Val(), b, ok, ptr)
    {
      hide Inv0;
      hide Busy;
      hide SamePages;
      SizeLists(Val(), b);
      var pr := sizebases[b];
      ghost var k := 0;
      while pr != NONE
        invariant Val() == old(Val()) && k <= |same[b]| && pr == First(same[b][k..])
        invariant forall j | 0 <= j < k :: same[b][j] < |free| && free[same[b][j]] == []
        decreases |same[b]| - k
      {
        SizeWalk(Val(), b, k);
        assert same[b][k..][0] == same[b][k];
        assert BlockType(prs[pr].pab) == b;
        if prs[pr].nfree > 0 {
          ptr := Pop(pr);
          PopBusy(old(Val()), Val(), pr, ptr);
          PopBlocks(old(Val()), Val(), pr, ptr);
          assert TriedAt(old(Val()), Val(), b, k, ptr);
          return true, ptr;
        }
        pr := prs[pr].nextSame;
        k := k + 1;
      }
      return false, 0;
    }

    /** The free list loop of subpage_kmalloc on a fresh page. */
    method ThreadPage(page: nat, b: nat)
      requires b < NSIZES
      modifies `mem
      ensures SameOutside(old(mem), mem, page, page + PAGE)
      ensures FreeChain(mem, page, Size(b), Descending(PerPage(b), Size(b)), BlockOffset(PerPage(b) - 1, Size(b)))
    {
      hide FreeChain;
      hide BlockOffset;
      hide Size;
      hide SameOutside;
      hide Descending;
      var n, size := PerPage(b), Size(b);
      ghost var mem0 := mem;
      mem := mem[page := 0];
      OutsideSet(mem0, mem0, page, 0, page, page + PAGE);
      OneBlock(mem, page, size);
      for i := 1 to n
        invariant SameOutside(mem0, mem, page, page + PAGE)
        invariant FreeChain(mem, page, size, Descending(i, size), BlockOffset(i - 1, size))
      {
        ghost var mem1 := mem;
        mem := mem[page + BlockOffset(i, size) := page + BlockOffset(i - 1, size)];
        NextBlock(mem1, mem, page, b, i);
        OutsideSet(mem0, mem1, page + BlockOffset(i, size), page + BlockOffset(i - 1, size), page, page + PAGE);
      }
    }

    /** Enter a fresh page of blocks of type b under pageref i. */
    method EnterPage(b: nat, page: nat, i: nat, words: seq<Word>)
      requires Inv0(Val()) && b < NSIZES && page in hand && i < NPAGEREFS && |inuse| == |words| == INUSE_WORDS
      requires !InUse(inuse, i) && forall j: nat | j < NPAGEREFS :: InUse(words, j) <==> j == i || InUse(inuse, j)
      requires forall j: nat | j < i :: InUse(inuse, j)
      modifies this
      ensures big == old(big) && Inv0(Val()) && Entered(old(Val()), Val(), i, b, page) && i in all
      ensures PageAdded(old(Val()), Val(), i, b, page)
      ensures free[i] == Descending(PerPage(b), Size(b)) && free[i] != []
    {
      hide Inv0;
      hide InUse;
      hide PageAddr;
      hide BlockType;
      hide SameOutside;
      hide PageOk;
      hide FreeChain;
      hide Descending;
      hide Entered;
      hide Size;
      ghost var h := Val();
      HandPage(h, page);
      NotListed(h, i);
      inuse := words;
      var n := PerPage(b);
      ThreadPage(page, b);
      prs := prs[i := Pageref(sizebases[b], allbase, page + b, BlockOffset(n - 1, Size(b)), n)];
      sizebases := sizebases[b := i];
      allbase := i;
      all, same, free := [i] + all, same[b := [i] + same[b]], free[i := Descending(n, Size(b))];
      hand := hand - {page};
      FreshPageOk(mem, prs[i], page, b);
      MakeEntered(h, Val(), i, b, page);
      EnteredKeeps(h, Val(), i, b, page);
    }

    /** The second region of subpage_kmalloc: enter a page just got from alloc_kpages and take a block from it. */
    method AddPage(b: nat, page: nat) returns (ok: bool, ptr: nat)
      requires Valid() && b < NSIZES && page in hand
      modifies this
      ensures Valid() && out == old(out) && lent == old(lent) && big == old(big)
      ensures ok ==> Allocated(old(Val()), Val(), b, ptr) && hand == old(hand) - {page}
      ensures !ok ==> Val() == old(Val()) && ptr == 0 && TableFull(Val())
      ensures Added(old(Val()), Val(), b, page, ok, ptr)
    {
      hide Inv0;
      hide InUse;
      hide Descending;
      hide Allocated;
      hide Size;
      hide Busy;
      hide Type;
      hide Linked;
      hide PageAdded;
      hide Popped;
      ghost var h := Val();
      HandPage(h, page);
      var words, i := AllocPageref(inuse);
      if i == NONE {
        return false, 0;
      }
      EnterPage(b, page, i, words);
      ghost var h1 := Val();
      ptr := Pop(i);
      EnteredBusy(h, h1, Val(), i, b, page, ptr);
      assert AddedAt(h, h1, Val(), i, b, page, ptr);
      return true, ptr;
    }

    /** The search of subpage_kfree for the page holding ptr. */
    method FindPage(ptr: nat) returns (pr: int)
      requires Inv0(Val())
      ensures NONE <= pr < |prs|
      ensures pr != NONE ==> pr as nat in all && PageOf(Val(), pr) <= ptr < PageOf(Val(), pr) + PAGE
      ensures pr == NONE ==> OffHeap(Val(), ptr)
    {
      hide Inv0;
      hide PageAddr;
      hide Linked;
      AllList(Val());
      pr := allbase;
      ghost var k := 0;
      while pr != NONE && !(PageAddr(prs[pr].pab) <= ptr < PageAddr(prs[pr].pab) + PAGE)
        invariant k <= |all| && pr == First(all[k..]) && NONE <= pr < |prs|
        invariant forall j | 0 <= j < k :: !(PageOf(Val(), all[j]) <= ptr < PageOf(Val(), all[j]) + PAGE)
        decreases |all| - k
      {
        AllWalk(Val(), k);
        assert all[k..][0] == all[k];
        pr := prs[pr].nextAll;
        k := k + 1;
      }
      if pr != NONE {
        assert all[k..][0] == all[k];
      }
    }

    /** fill_deadbeef. */
    method FillDeadbeef(ptr: nat, len: nat)
      modifies `mem
      ensures SameOutside(old(mem), mem, ptr, ptr + len)
    {
      for i := 0 to len / 4
        invariant SameOutside(old(mem), mem, ptr, ptr + len)
      {
        mem := mem[ptr + 4 * i := 0xdeadbeef];
      }
    }

    /** subpage_kfree up to its check for an empty page: the block goes in front of its page's free list. */
    method Push(i: nat, ptr: nat)
      requires Inv0(Val()) && ptr in live && live[ptr] == i
      modifies `prs, `mem, `free, `live
      ensures Inv0(Val()) && PushEffect(old(Val()), Val(), i, ptr) && BlockFreed(old(Val()), Val(), ptr)
    {
      hide Inv0;
      hide InPage;
      hide Size;
      hide PushEffect;
      ghost var h := Val();
      LiveAt(h, ptr);
      InTable(h, i);
      var prpage, blktype := PageAddr(prs[i].pab), BlockType(prs[i].pab);
      var offset := ptr - prpage;
      PushFacts(h, i, offset);
      assert offset < PAGE && offset % Size(blktype) == 0;
      FillDeadbeef(ptr, Size(blktype));
      mem := mem[ptr := if prs[i].offset == INVALID then 0 else prpage + prs[i].offset];
      prs := prs[i := prs[i].(nfree := prs[i].nfree + 1, offset := offset)];
      free := free[i := [offset as nat] + free[i]];
      live := live - {ptr};
      PushKeeps(h, Val(), i, offset, mem);
      MakePushEffect(h, Val(), i, ptr, offset);
    }

    /** remove_lists and freepageref on a page with no live block; the page is now in the caller's hands. */
    method DropPage(i: nat)
      requires Inv0(Val()) && i in all && i < |prs| && Type(Val(), i) < NSIZES && |free[i]| == PerPage(Type(Val(), i))
      modifies this
      ensures big == old(big) && Inv0(Val()) && (exists k, m :: Left(old(Val()), Val(), i, k, m))
      ensures forall j :: j in all <==> j in old(all) && j != i
    {
      hide Inv0;
      hide Linked;
      hide InUse;
      hide PageAddr;
      hide BlockType;
      hide Size;
      hide Left;
      hide Remove;
      ghost var h := Val();
      DropFacts(h, i);
      var blktype := BlockType(prs[i].pab);
      ghost var k, m;
      var base, all_;
      base, prs, m := Unlink(sizebases[blktype], prs, true, i, same[blktype]);
      ghost var prs1 := prs;
      sizebases := sizebases[blktype := base];
      LinkedFrame(allbase, h.prs, prs1, false, all);
      all_, prs, k := Unlink(allbase, prs, false, i, all);
      LinkedFrame(base, prs1, prs, true, Remove(same[blktype], m));
      allbase := all_;
      inuse := FreePageref(inuse, i);
      hand := hand + {PageAddr(prs[i].pab)};
      all, same := Remove(all, k), same[blktype := Remove(same[blktype], m)];
      MakeLeft(h, Val(), i, k, m);
      LeftKeeps(h, Val(), i, k, m);
    }

    /**
     * subpage_kfree. A block is taken off the live ones; its page is given up, into the caller's hands, exactly
     * when no other live block is in it.
     */
    method SubpageFree(ptr: nat) returns (found: bool, emptied: bool, page: nat)
      requires Valid() && (ptr in live || OffHeap(Val(), ptr))
      modifies this
      ensures Valid() && out == old(out) && lent == old(lent) && big == old(big) && (found <==> ptr in old(live))
      ensures !found ==> Val() == old(Val()) && !emptied
      ensures found ==> Blocks(Val()) == old(Blocks(Val())) - {ptr}
      ensures found ==> page <= ptr < page + PAGE && page % PAGE == 0 && page in out
      ensures found ==> (emptied <==> forall a | a in old(live) && a != ptr :: !(page <= a < page + PAGE))
      ensures if emptied then page !in old(hand) && hand == old(hand) + {page} else hand == old(hand)
      ensures found ==> Freed(old(Val()), Val(), ptr, emptied, page)
    {
      hide Inv0;
      hide Busy;
      hide Size;
      hide Left;
      hide PushEffect;
      hide BlockFreed;
      hide BlockType;
      hide PageAddr;
      hide Blocks;
      hide SamePages;
      ghost var h := Val();
      var pr := FindPage(ptr);
      FoundRight(h, ptr, pr);
      if pr == NONE {
        return false, false, 0;
      }
      InTable(h, pr);
      page := PageAddr(prs[pr].pab);
      var blktype := BlockType(prs[pr].pab);
      Push(pr, ptr);
      ghost var h1 := Val();
      PushFrame(h, h1, pr, ptr);
      PushedEmpty(h, h1, pr, ptr);
      assert prs[pr].nfree <= PerPage(blktype);
      if prs[pr].nfree == PerPage(blktype) {
        DropPage(pr);
        ghost var k, m :| Left(h1, Val(), pr, k, m);
        DroppedBusy(h, h1, Val(), pr, ptr, k, m);
        assert FreedAt(h, h1, Val(), ptr, true, page);
        return true, true, page;
      } else {
        PushedBusy(h, h1, pr, ptr);
        assert FreedAt(h, h1, Val(), ptr, false, page);
        return true, false, page;
      }
    }

    /** alloc_kpages has returned n fresh pages at page; they are now in the caller's hands. */
    ghost method Supply(page: nat, n: nat)
      requires Valid() && page > 0 && page % PAGE == 0 && Pages(page, n) !! out
      modifies `out, `hand
      ensures Valid() && out == old(out) + Pages(page, n) && hand == old(hand) + Pages(page, n)
      ensures old(hand) + old(lent) <= old(out)
    {
      hide Pages;
      ghost var h := Val();
      LentOut(h);
      out, hand := out + Pages(page, n), hand + Pages(page, n);
      SupplyKeeps(h, Val(), page, n);
    }

    /** free_kpages takes back pages that are in the caller's hands. */
    ghost method GiveBack(ps: set<nat>)
      requires Valid() && ps <= hand
      modifies `out, `hand
      ensures Valid() && out == old(out) - ps && hand == old(hand) - ps
    {
      ghost var h := Val();
      out, hand := out - ps, hand - ps;
      GiveBackKeeps(h, Val(), ps);
    }

    /** subpage_kmalloc; supply is the answer of alloc_kpages(1), 0 when there is no page. */
    method SubpageKmalloc(sz: nat, supply: nat) returns (ptr: nat)
      requires Valid() && sz <= LARGEST
      requires supply == 0 || (supply % PAGE == 0 && Pages(supply, 1) !! out)
      modifies this
      ensures Valid() && lent == old(lent) && hand == old(hand) && big == old(big)
      ensures ptr == 0 ==> Blocks(Val()) == old(Blocks(Val())) && out == old(out)
      ensures ptr == 0 ==> supply == 0 || TableFull(old(Val()))
      ensures forall b | Fits(sz, b) ::
                if ptr == 0 then NoneFree(old(Val()), b) else Allocated(old(Val()), Val(), b, ptr)
      ensures out != old(out) ==> out == old(out) + {supply} && forall b | Fits(sz, b) :: NoneFree(old(Val()), b)
    {
      hide Inv;
      hide BigOk;
      hide Blocks;
      hide Allocated;
      hide Size;
      hide Pages;
      hide NoneFree;
      hide TableFull;
      hide Fits;
      var b := BlockTypeFor(sz);
      OneFits(sz, b);
      var ok;
      ok, ptr := TryAlloc(b);
      if ok {
        AllocatedNonzero(old(Val()), Val(), b, ptr);
        return;
      }
      if supply == 0 {
        return 0;
      }
      ghost var h := Val();
      OnePage(supply);
      Supply(supply, 1);
      SupplyBlocks(h, Val());
      ghost var h1 := Val();
      ok, ptr := AddPage(b, supply);
      if !ok {
        FullSupply(h, Val());
        GiveBack({supply});
        SupplyBlocks(h, Val());
        return 0;
      }
      AllocatedAfter(h, h1, Val(), b, ptr);
    }

    /** kmalloc: blocks of 2048 bytes and more are whole pages. */
    method Alloc(sz: nat, supply: nat) returns (ptr: nat)
      requires Valid()
      requires supply == 0 || (supply % PAGE == 0 && Pages(supply, NPages(sz)) !! out)
      modifies this
      ensures Valid() && hand == old(hand)
      ensures ptr == 0 ==> Blocks(Val()) == old(Blocks(Val())) && out == old(out) && big == old(big)
      ensures ptr == 0 ==> supply == 0 || (sz < LARGEST && TableFull(old(Val())))
      ensures sz < LARGEST ==> big == old(big) && (out == old(out) || out == old(out) + {supply})
      ensures sz < LARGEST ==> forall b | Fits(sz, b) ::
                if ptr == 0 then NoneFree(old(Val()), b) else Allocated(old(Val()), Val(), b, ptr)
      ensures ptr != 0 && sz >= LARGEST ==>
                && Blocks(Val()) == old(Blocks(Val())) && ptr % PAGE == 0
                && (NPages(sz) - 1) * 4096 < sz <= NPages(sz) * 4096
                && Pages(ptr, NPages(sz)) !! old(out) && ptr !in old(big) && big == old(big)[ptr := NPages(sz)]
                && out == old(out) + Pages(ptr, NPages(sz))
    {
      hide Inv;
      hide BigOk;
      hide Blocks;
      hide Pages;
      hide NoneFree;
      hide TableFull;
      hide Fits;
      hide Allocated;
      if sz >= LARGEST {
        var npages := NPages(sz);
        if supply == 0 {
          return 0;
        }
        ghost var h := Val();
        Supply(supply, npages);
        ghost var h1 := Val();
        SupplyBlocks(h, h1);
        LentOut(h);
        lent, hand := lent + Pages(supply, npages), hand - Pages(supply, npages);
        LendKeeps(h, h1, Val(), Pages(supply, npages));
        BigAdd(big, h.lent, h.out, supply, npages);
        big := big[supply := npages];
        SupplyBlocks(h1, Val());
        return supply;
      }
      ptr := SubpageKmalloc(sz, supply);
    }

    /** kfree of a live block, a large allocation or the null pointer. */
    method Free(ptr: nat)
      requires Valid() && (ptr == 0 || ptr in live || ptr in big)
      modifies this
      ensures Valid() && hand == old(hand)
      ensures ptr == 0 ==> Val() == old(Val()) && big == old(big)
      ensures ptr in old(live) ==> Blocks(Val()) == old(Blocks(Val())) - {ptr} && big == old(big)
      ensures ptr in old(live) ==> exists page: nat ::
                && page <= ptr < page + PAGE && page % PAGE == 0 && page in old(out)
                && out == if forall a | a in old(live) && a != ptr :: !(page <= a < page + PAGE) then old(out) - {page}
                          else old(out)
      ensures ptr != 0 && ptr !in old(live) ==>
                && Blocks(Val()) == old(Blocks(Val())) && ptr in old(big) && big == old(big) - {ptr}
                && out == old(out) - Pages(ptr, old(big)[ptr])
    {
      hide Inv0;
      hide Busy;
      hide BigOk;
      hide Blocks;
      hide Pages;
      if ptr == 0 {
        NoNull(Val());
        return;
      }
      BigOffHeap(Val(), big, ptr);
      ghost var h := Val();
      var found, emptied, page := SubpageFree(ptr);
      if !found {
        assert ptr % PAGE == 0;
        ghost var ps := Pages(ptr, big[ptr]);
        BigDrop(big, lent, ptr);
        big := big - {ptr};
        lent, out := lent - ps, out - ps;
        TakeLent(h, Val(), ps);
        SupplyBlocks(h, Val());
      } else if emptied {
        ghost var h1 := Val();
        GiveBack({page});
        SupplyBlocks(h1, Val());
      }
    }

    /** The owner of a live block may store anything in it. */
    method Store(block: nat, a: nat, w: nat)
      requires Valid() && block in live && block <= a < block + Blocks(Val())[block]
      modifies `mem
      ensures Valid() && Blocks(Val()) == old(Blocks(Val())) && mem == old(mem)[a := w]
    {
      hide Inv0;
      hide BigOk;
      hide Size;
      ghost var h := Val();
      LiveAt(h, block);
      InTable(h, live[block]);
      mem := mem[a := w];
      StoreKeeps(h, Val(), block, mem);
      StoreBusy(h, Val());
    }
  }

  /** The heap before its first page. */
  ghost function EmptyHeap(mem: Memory): Heap {
    Heap(seq(NPAGEREFS, _ => Pageref(NONE, NONE, 0, INVALID, 0)), seq(INUSE_WORDS, _ => seq(32, _ => false)),
         seq(NSIZES, _ => NONE), NONE, mem, [], seq(NSIZES, _ => []), seq(NPAGEREFS, _ => []), map[], {}, {}, {})
  }

  lemma EmptyHeapInv(mem: Memory)
    ensures Inv(EmptyHeap(mem)) && BigOk(map[], {})
  {
  }

  /** The addresses of n pages starting at page. */
  function Pages(page: nat, n: nat): set<nat> {
    set k | 0 <= k < n :: page + k * PAGE
  }

  /** The whole pages a large allocation takes: enough, and not one more. */
  function NPages(sz: nat): (n: nat)
    ensures sz >= LARGEST ==> (n - 1) * 4096 < sz <= n * 4096
  {
    if sz < LARGEST then 1 else (sz + PAGE - 1) / PAGE
  }

  /** Large allocations are whole pages out on loan, no page to two of them. */
  ghost predicate BigOk(big: map<nat, nat>, lent: set<nat>) {
    && (forall a | a in big :: big[a] > 0 && Pages(a, big[a]) <= lent)
    && (forall a, a' | a in big && a' in big && a != a' :: Pages(a, big[a]) !! Pages(a', big[a']))
  }

  /** b is the smallest block type with room for sz bytes. */
  ghost predicate Fits(sz: nat, b: nat) {
    b < NSIZES && sz <= Size(b) && forall c: nat | c < b :: Size(c) < sz
  }

  lemma OneFits(sz: nat, b: nat)
    requires Fits(sz, b)
    ensures b < NSIZES && sz <= Size(b) && forall c | Fits(sz, c) :: c == b
  {
    hide Size;
  }

  /** A block is less than twice as large as what was asked for, unless it is the smallest. */
  lemma LittleWaste(sz: nat, b: nat)
    requires Fits(sz, b)
    ensures Size(b) == 16 || Size(b) < 2 * sz
  {
    if b > 0 {
      assert Size(b - 1) < sz;
      assert Size(b) == 2 * Size(b - 1);
    }
  }

  /** blocktype: the smallest block size that fits. */
  method BlockTypeFor(sz: nat) returns (b: nat)
    requires sz <= LARGEST
    ensures Fits(sz, b)
    ensures var sizes := [16, 32, 64, 128, 256, 512, 1024, 2048];
            b < 8 && sz <= sizes[b] && (b > 0 ==> sizes[b - 1] < sz)
  {
    for i := 0 to NSIZES
      invariant forall c: nat | c < i :: Size(c) < sz
      invariant i > 0 ==> SIZES[i - 1] < sz
    {
      if sz <= SIZES[i] {
        return i;
      }
    }
    assert false;
  }

  /** No heap page contains this address. */
  ghost predicate OffHeap(h: Heap, ptr: nat) {
    forall i: nat | i in h.all && i < |h.prs| :: !(PageOf(h, i) <= ptr < PageOf(h, i) + PAGE)
  }

  lemma AllList(h: Heap)
    requires Inv0(h)
    ensures TableOk(h) && h.allbase == First(h.all)
  {
    hide ChainsOk;
    hide ApartOk;
    hide LiveOk;
    hide SupplyOk;
    hide InUse;
  }

  lemma AllWalk(h: Heap, k: nat)
    requires Inv0(h) && k < |h.all|
    ensures TableOk(h) && h.all[k] < NPAGEREFS && h.prs[h.all[k]].nextAll == First(h.all[k + 1..])
    ensures First(h.all[k + 1..]) < NPAGEREFS
  {
    hide ChainsOk;
    hide ApartOk;
    hide LiveOk;
    hide SupplyOk;
    hide InUse;
    assert k + 1 < |h.all| ==> h.all[k + 1..][0] == h.all[k + 1];
  }

  // ---- what the regions do, as relations between heaps ----

  /** The first free block of entry i went to ptr's new owner. */
  ghost predicate Popped(h: Heap, h': Heap, i: nat, ptr: nat) {
    && TableOk(h) && i in h.all && h.free[i] != [] && ptr == PageOf(h, i) + h.free[i][0]
    && var tail := h.free[i][1..];
       h' == h.(prs := h.prs[i := h.prs[i].(nfree := |tail|, offset := if tail == [] then INVALID else tail[0])],
                free := h.free[i := tail], live := h.live[ptr := i])
  }

  /** The first region of subpage_kmalloc: the first page of type b with a free block gives one. */
  ghost predicate Tried(h: Heap, h': Heap, b: nat, ok: bool, ptr: nat) {
    if ok then exists k: nat :: TriedAt(h, h', b, k, ptr) else NoneFree(h, b) && h' == h && ptr == 0
  }

  ghost predicate TriedAt(h: Heap, h': Heap, b: nat, k: nat, ptr: nat) {
    && b < |h.same| && k < |h.same[b]| && Popped(h, h', h.same[b][k], ptr)
    && forall j | 0 <= j < k :: h.same[b][j] < |h.free| && h.free[h.same[b][j]] == []
  }

  /** A fresh page was entered under the first unused entry, all its blocks on its free list. */
  ghost predicate PageAdded(h: Heap, h1: Heap, i: nat, b: nat, page: nat) {
    && Entered(h, h1, i, b, page) && !InUse(h.inuse, i) && (forall j: nat | j < i :: InUse(h.inuse, j))
    && h1.free[i] == Descending(PerPage(b), Size(b))
    && SameOutside(h.mem, h1.mem, page, page + PAGE) && PageOk(h1.mem, h1.prs[i], h1.free[i])
  }

  /** The second region of subpage_kmalloc. */
  ghost predicate Added(h: Heap, h': Heap, b: nat, page: nat, ok: bool, ptr: nat) {
    if ok then exists i: nat, h1 :: AddedAt(h, h1, h', i, b, page, ptr) else TableFull(h) && h' == h && ptr == 0
  }

  ghost predicate AddedAt(h: Heap, h1: Heap, h': Heap, i: nat, b: nat, page: nat, ptr: nat) {
    PageAdded(h, h1, i, b, page) && Popped(h1, h', i, ptr)
  }

  /** The block at ptr was put in front of its page's free list; only its own bytes were written. */
  ghost predicate BlockFreed(h: Heap, h1: Heap, ptr: nat) {
    && TableOk(h) && ptr in h.live && h.live[ptr] < NPAGEREFS && Type(h, h.live[ptr]) < NSIZES
    && PageOf(h, h.live[ptr]) <= ptr
    && var i, o := h.live[ptr], ptr - PageOf(h, h.live[ptr]);
       && SameOutside(h.mem, h1.mem, ptr, ptr + Size(Type(h, i)))
       && Load(h1.mem, ptr) == (if h.prs[i].offset == INVALID then 0 else PageOf(h, i) + h.prs[i].offset)
       && h1 == h.(prs := h.prs[i := h.prs[i].(nfree := h.prs[i].nfree + 1, offset := o)], mem := h1.mem,
                   free := h.free[i := [o] + h.free[i]], live := h.live - {ptr})
  }

  /** subpage_kfree of a block: a page with no block in use is taken off the lists. */
  ghost predicate Freed(h: Heap, h': Heap, ptr: nat, emptied: bool, page: nat) {
    exists h1 :: FreedAt(h, h1, h', ptr, emptied, page)
  }

  ghost predicate FreedAt(h: Heap, h1: Heap, h': Heap, ptr: nat, emptied: bool, page: nat) {
    && BlockFreed(h, h1, ptr) && ptr in h.live && h.live[ptr] < |h.prs| && h.live[ptr] < |h1.prs|
    && h.live[ptr] < |h1.free| && Type(h, h.live[ptr]) < NSIZES
    && var i := h.live[ptr];
       && page == PageOf(h, i) && (emptied <==> |h1.free[i]| == PerPage(Type(h, i)))
       && if emptied then exists k, m :: Left(h1, h', i, k, m) else h' == h1
  }

  /** One block of entry i's page went from live to free. */
  ghost predicate PushEffect(h: Heap, h': Heap, i: nat, ptr: nat) {
    && TableOk(h) && TableOk(h') && i in h.all && Type(h, i) < NSIZES && ptr in h.live && h.live[ptr] == i
    && SamePages(h, h') && h'.live == h.live - {ptr}
    && (forall j | 0 <= j < NPAGEREFS && j != i :: h'.free[j] == h.free[j])
    && |h'.free[i]| == |h.free[i]| + 1 && h'.prs[i].nfree == |h'.free[i]|
  }

  lemma PushFacts(h: Heap, i: nat, o: nat)
    requires Inv0(h) && i in h.all && i < |h.prs| && Type(h, i) < NSIZES && InPage(o, Size(Type(h, i)))
    requires PageOf(h, i) + o in h.live
    ensures TableOk(h) && o !in h.free[i] && o < PAGE && o % Size(Type(h, i)) == 0 && h.prs[i].nfree == |h.free[i]|
    ensures Size(Type(h, i)) > 0
  {
    hide ListsOk;
    hide ApartOk;
    hide SupplyOk;
    hide BlockOk;
    hide LiveHome;
    hide FreeChain;
    hide Size;
    assert PageOk(h.mem, h.prs[i], h.free[i]);
    NotLive(h, i, o);
  }

  lemma FoundRight(h: Heap, ptr: nat, pr: int)
    requires Inv0(h) && NONE <= pr < |h.prs| && (ptr in h.live || OffHeap(h, ptr))
    requires pr != NONE ==> pr as nat in h.all && PageOf(h, pr) <= ptr < PageOf(h, pr) + PAGE
    requires pr == NONE ==> OffHeap(h, ptr)
    ensures pr == NONE <==> ptr !in h.live
    ensures pr != NONE ==> h.live[ptr] == pr && Type(h, pr) < NSIZES
                           && PageOf(h, pr) in h.out && PageOf(h, pr) !in h.hand
    ensures pr != NONE ==> PageOf(h, pr) % PAGE == 0
  {
    hide ListsOk;
    hide ChainsOk;
    hide LiveOk;
    hide Size;
    if ptr in h.live {
      LiveAt(h, ptr);
      var i := h.live[ptr];
      InPageBound(ptr - PageOf(h, i), Size(Type(h, i)));
      if pr != NONE && pr != i {
        PagesApart(PageOf(h, i), PageOf(h, pr));
      }
    }
  }

  lemma PushFrame(h: Heap, h1: Heap, i: nat, ptr: nat)
    requires PushEffect(h, h1, i, ptr)
    ensures TableOk(h) && TableOk(h1) && i in h1.all && i < NPAGEREFS && Type(h1, i) == Type(h, i) < NSIZES
    ensures PageOf(h1, i) == PageOf(h, i) && h1.prs[i].nfree == |h1.free[i]| == |h.free[i]| + 1
    ensures h1.out == h.out && h1.hand == h.hand && h1.lent == h.lent && h1.all == h.all
    ensures Blocks(h1) == Blocks(h) - {ptr}
  {
    hide InUse;
    hide Size;
    hide PageAddr;
    hide BlockType;
    assert forall j: nat | j < NPAGEREFS :: Type(h1, j) == Type(h, j);
  }

  /** After the push, the free list is full exactly when no other block of the page is live. */
  lemma PushedEmpty(h: Heap, h1: Heap, i: nat, ptr: nat)
    requires PushEffect(h, h1, i, ptr) && Inv0(h1) && Inv(h)
    ensures i < |h1.prs| && Type(h1, i) < NSIZES && |h1.free[i]| <= PerPage(Type(h1, i))
    ensures |h1.free[i]| == PerPage(Type(h1, i)) <==>
              forall a | a in h.live && a != ptr :: !(PageOf(h1, i) <= a < PageOf(h1, i) + PAGE)
  {
    hide Inv0;
    hide InUse;
    hide Size;
    hide PageAddr;
    hide BlockType;
    assert Type(h1, i) == Type(h, i);
    assert |h.free[i]| < PerPage(Type(h, i));
    if |h1.free[i]| == PerPage(Type(h1, i)) {
      forall a | a in h.live && a != ptr
        ensures !(PageOf(h1, i) <= a < PageOf(h1, i) + PAGE)
      {
        assert a in h1.live;
        NoneLive(h1, i, a);
        LiveElsewhere(h1, i, a);
      }
    } else {
      var a := SomeLive(h1, i);
      assert a in h.live && a != ptr;
    }
  }

  lemma LiveElsewhere(h: Heap, i: nat, a: nat)
    requires Inv0(h) && i in h.all && i < |h.prs| && a in h.live && h.live[a] != i
    ensures !(PageOf(h, i) <= a < PageOf(h, i) + PAGE)
  {
    hide ListsOk;
    hide ChainsOk;
    hide LiveOk;
    hide Size;
    LiveAt(h, a);
    var j := h.live[a];
    InPageBound(a - PageOf(h, j), Size(Type(h, j)));
    PagesApart(PageOf(h, i), PageOf(h, j));
  }

  lemma PushedBusy(h: Heap, h1: Heap, i: nat, ptr: nat)
    requires PushEffect(h, h1, i, ptr) && Busy(h) && |h1.free[i]| < PerPage(Type(h, i))
    ensures Busy(h1)
  {
    hide InUse;
    hide Size;
    hide BlockType;
    assert forall j: nat | j < NPAGEREFS :: Type(h1, j) == Type(h, j);
  }

  lemma DroppedBusy(h: Heap, h1: Heap, h2: Heap, i: nat, ptr: nat, k: nat, m: nat)
    requires PushEffect(h, h1, i, ptr) && Busy(h) && Left(h1, h2, i, k, m)
    requires forall j :: j in h2.all <==> j in h1.all && j != i
    ensures Busy(h2) && Blocks(h2) == Blocks(h1) && h2.out == h1.out && h2.lent == h1.lent
    ensures h2.hand == h1.hand + {PageOf(h1, i)}
  {
    hide InUse;
    hide Linked;
    hide Size;
    hide BlockType;
    hide PageAddr;
    assert forall j: nat | j < NPAGEREFS :: Type(h1, j) == Type(h, j) && Type(h2, j) == Type(h1, j);
  }

  /** Only what is out of the supplier, and with whom, differs. */
  ghost predicate SameHeap(h: Heap, h': Heap) {
    h' == h.(out := h'.out, hand := h'.hand, lent := h'.lent)
  }

  lemma SupplyBlocks(h: Heap, h': Heap)
    requires SameHeap(h, h')
    ensures Blocks(h') == Blocks(h)
  {
    hide Size;
  }

  lemma SameHeapKeeps(h: Heap, h': Heap)
    requires SameHeap(h, h') && Inv(h) && SupplyOk(h')
    ensures Inv(h')
  {
    hide Linked;
    hide InUse;
    hide PageOk;
    hide InPage;
    hide Size;
    hide SupplyOk;
    hide PageAddr;
    hide BlockType;
    SameHeapLive(h, h');
  }

  lemma SameHeapLive(h: Heap, h': Heap)
    requires SameHeap(h, h') && TableOk(h) && LiveOk(h)
    ensures TableOk(h') && LiveOk(h')
  {
    hide InPage;
    hide Size;
    hide BlockOk;
    hide LiveHome;
    hide PageAddr;
    hide BlockType;
    forall i: nat, o: nat | i in h'.all && Type(h', i) < NSIZES && InPage(o, Size(Type(h', i)))
      ensures BlockOk(h', i, o)
    {
      assert Type(h', i) == Type(h, i);
      SameHeapBlock(h, h', i, o);
    }
    forall a: nat | a in h'.live
      ensures LiveHome(h', a)
    {
      SameHeapHome(h, h', a);
    }
  }

  lemma SameHeapBlock(h: Heap, h': Heap, i: nat, o: nat)
    requires SameHeap(h, h') && TableOk(h) && i < NPAGEREFS && BlockOk(h, i, o)
    ensures BlockOk(h', i, o)
  {
  }

  lemma SameHeapHome(h: Heap, h': Heap, a: nat)
    requires SameHeap(h, h') && TableOk(h) && a in h.live && LiveHome(h, a)
    ensures LiveHome(h', a)
  {
  }

  lemma SameHeapPage(h: Heap, h': Heap, p: nat)
    requires SameHeap(h, h') && TableOk(h) && IsHeapPage(h, p)
    ensures IsHeapPage(h', p)
  {
    var i: nat :| i in h.all && PageOf(h, i) == p;
    assert PageOf(h', i) == p;
  }

  lemma PagesAligned(page: nat, n: nat)
    requires page % PAGE == 0
    ensures forall p | p in Pages(page, n) :: p % PAGE == 0 && p >= page
  {
  }

  lemma OnePage(page: nat)
    ensures Pages(page, 1) == {page}
  {
    FirstPage(page, 1);
  }

  lemma LentOut(h: Heap)
    requires Inv(h)
    ensures h.hand <= h.out && h.lent <= h.out
  {
    hide ListsOk;
    hide ChainsOk;
    hide ApartOk;
    hide LiveOk;
    hide Busy;
  }

  lemma SupplyKeeps(h: Heap, h': Heap, page: nat, n: nat)
    requires Inv(h) && page > 0 && page % PAGE == 0 && Pages(page, n) !! h.out
    requires h' == h.(out := h.out + Pages(page, n), hand := h.hand + Pages(page, n))
    ensures Inv(h')
  {
    hide Linked;
    hide InUse;
    hide PageOk;
    hide LiveOk;
    hide Size;
    hide Pages;
    hide IsHeapPage;
    hide PageAddr;
    hide BlockType;
    PagesAligned(page, n);
    forall p | p in h'.out && p !in h'.hand && p !in h'.lent
      ensures IsHeapPage(h', p)
    {
      SameHeapPage(h, h', p);
    }
    SameHeapKeeps(h, h');
  }

  lemma GiveBackKeeps(h: Heap, h': Heap, ps: set<nat>)
    requires Inv(h) && ps <= h.hand && h' == h.(out := h.out - ps, hand := h.hand - ps)
    ensures Inv(h')
  {
    hide Linked;
    hide InUse;
    hide PageOk;
    hide LiveOk;
    hide Size;
    hide IsHeapPage;
    hide PageAddr;
    hide BlockType;
    forall p | p in h'.out && p !in h'.hand && p !in h'.lent
      ensures IsHeapPage(h', p)
    {
      SameHeapPage(h, h', p);
    }
    SameHeapKeeps(h, h');
  }

  lemma TakeLent(h: Heap, h': Heap, ps: set<nat>)
    requires Inv(h) && ps <= h.lent && h' == h.(out := h.out - ps, lent := h.lent - ps)
    ensures Inv(h')
  {
    hide Linked;
    hide InUse;
    hide PageOk;
    hide LiveOk;
    hide Size;
    hide IsHeapPage;
    hide PageAddr;
    hide BlockType;
    forall p | p in h'.out && p !in h'.hand && p !in h'.lent
      ensures IsHeapPage(h', p)
    {
      SameHeapPage(h, h', p);
    }
    SameHeapKeeps(h, h');
  }

  lemma LendKeeps(h: Heap, h1: Heap, h2: Heap, ps: set<nat>)
    requires Inv(h) && Inv(h1) && h1 == h.(out := h.out + ps, hand := h.hand + ps) && ps !! h.out
    requires h2 == h1.(lent := h1.lent + ps, hand := h1.hand - ps)
    ensures Inv(h2) && h2.hand == h.hand
  {
    hide Linked;
    hide InUse;
    hide PageOk;
    hide LiveOk;
    hide Size;
    hide IsHeapPage;
    hide PageAddr;
    hide BlockType;
    forall p | p in h2.out && p !in h2.hand && p !in h2.lent
      ensures IsHeapPage(h2, p)
    {
      SameHeapPage(h1, h2, p);
    }
    SameHeapKeeps(h1, h2);
  }

  lemma BigAdd(big: map<nat, nat>, lent: set<nat>, out: set<nat>, page: nat, n: nat)
    requires BigOk(big, lent) && lent <= out && Pages(page, n) !! out && n > 0
    ensures page !in big && BigOk(big[page := n], lent + Pages(page, n))
  {
    hide Pages;
    assert page in Pages(page, n) by { FirstPage(page, n); }
    if page in big {
      FirstPage(page, big[page]);
    }
  }

  lemma FirstPage(page: nat, n: nat)
    requires n > 0
    ensures page in Pages(page, n)
  {
    assert page == page + 0 * PAGE;
  }

  lemma BigDrop(big: map<nat, nat>, lent: set<nat>, page: nat)
    requires BigOk(big, lent) && page in big
    ensures Pages(page, big[page]) <= lent && BigOk(big - {page}, lent - Pages(page, big[page]))
  {
    hide Pages;
  }

  /** A large allocation is outside the heap's pages, and page aligned. */
  lemma BigOffHeap(h: Heap, big: map<nat, nat>, ptr: nat)
    requires Inv0(h) && BigOk(big, h.lent)
    ensures ptr in big ==> ptr % PAGE == 0 && OffHeap(h, ptr)
  {
    hide ListsOk;
    hide ChainsOk;
    hide ApartOk;
    hide LiveOk;
    hide Pages;
    hide IsHeapPage;
    if ptr in big {
      FirstPage(ptr, big[ptr]);
      assert ptr in h.lent;
    }
  }

  /** A page that is not one of n consecutive pages lies wholly before or after them. */
  lemma PageOutside(q: nat, p: nat, n: nat)
    requires q % PAGE == 0 && p % PAGE == 0 && q !in Pages(p, n)
    ensures q + PAGE <= p || p + n * PAGE <= q
  {
    if p <= q < p + n * PAGE {
      PageWithin(q, p, n);
    }
  }

  lemma PageWithin(q: nat, p: nat, n: nat)
    requires q % PAGE == 0 && p % PAGE == 0 && p <= q < p + n * PAGE
    ensures q in Pages(p, n)
  {
    var k := (q - p) / PAGE;
    assert q == p + k * PAGE && k < n;
  }

  /** A block of the subpage allocator and a large allocation do not overlap. */
  lemma BlockApartFromBig(h: Heap, big: map<nat, nat>, a: nat, p: nat)
    requires Inv0(h) && BigOk(big, h.lent) && a in h.live && p in big
    ensures a in Blocks(h) && (a + Blocks(h)[a] <= p || p + big[p] * PAGE <= a)
  {
    hide ListsOk;
    hide ChainsOk;
    hide ApartOk;
    hide LiveOk;
    hide Pages;
    hide IsHeapPage;
    hide Size;
    hide InPage;
    LiveAt(h, a);
    var i := h.live[a];
    var q := PageOf(h, i);
    LiveInPage(a - q, Type(h, i));
    FirstPage(p, big[p]);
    PageOutside(q, p, big[p]);
  }

  lemma LiveInPage(o: nat, b: nat)
    requires b < NSIZES && InPage(o, Size(b))
    ensures o + Size(b) <= PAGE
  {
    hide Size;
    BlockInPage(o, b);
  }

  /** Two large allocations do not overlap. */
  lemma BigsApart(big: map<nat, nat>, lent: set<nat>, out: set<nat>, p: nat, q: nat)
    requires BigOk(big, lent) && lent <= out && (forall x | x in out :: x % PAGE == 0)
    requires p in big && q in big && p != q
    ensures p + big[p] * PAGE <= q || q + big[q] * PAGE <= p
  {
    hide Pages;
    FirstPage(p, big[p]);
    FirstPage(q, big[q]);
    PageOutside(p, q, big[q]);
    PageOutside(q, p, big[p]);
  }

  lemma NoNull(h: Heap)
    requires Inv0(h)
    ensures 0 !in h.live
  {
    hide ListsOk;
    hide ChainsOk;
    hide ApartOk;
    hide LiveOk;
    hide Size;
    if 0 in h.live {
      LiveAt(h, 0);
    }
  }

  lemma AllocatedNonzero(h: Heap, h': Heap, b: nat, ptr: nat)
    requires b < NSIZES && Allocated(h, h', b, ptr)
    ensures ptr != 0
  {
  }

  lemma AllocatedAfter(h: Heap, h1: Heap, h2: Heap, b: nat, ptr: nat)
    requires b < NSIZES && SameHeap(h, h1) && Allocated(h1, h2, b, ptr)
    ensures Allocated(h, h2, b, ptr) && ptr != 0
  {
    hide Size;
    hide Blocks;
    SupplyBlocks(h, h1);
  }

  lemma StoreBusy(h: Heap, h': Heap)
    requires TableOk(h) && Busy(h) && h' == h.(mem := h'.mem)
    ensures Busy(h') && Blocks(h') == Blocks(h)
  {
    hide Size;
    hide BlockType;
    assert forall j: nat | j < NPAGEREFS :: Type(h', j) == Type(h, j);
  }

  lemma DropFacts(h: Heap, i: nat)
    requires Inv0(h) && i in h.all && i < |h.prs| && Type(h, i) < NSIZES
    ensures TableOk(h) && i in h.same[Type(h, i)] && InUse(h.inuse, i)
    ensures Linked(h.sizebases[Type(h, i)], h.prs, true, h.same[Type(h, i)]) && Linked(h.allbase, h.prs, false, h.all)
  {
    hide ChainsOk;
    hide ApartOk;
    hide LiveOk;
    hide SupplyOk;
    hide Linked;
  }

  lemma MakeLeft(h: Heap, h': Heap, i: nat, k: nat, m: nat)
    requires TableOk(h) && i in h.all && i < NPAGEREFS && Type(h, i) < NSIZES && k < |h.all| && h.all[k] == i
    requires m < |h.same[Type(h, i)]| && h.same[Type(h, i)][m] == i
    requires |h'.prs| == NPAGEREFS && |h'.inuse| == INUSE_WORDS && |h'.sizebases| == NSIZES
    requires Linked(h'.allbase, h'.prs, false, Remove(h.all, k))
    requires Linked(h'.sizebases[Type(h, i)], h'.prs, true, Remove(h.same[Type(h, i)], m))
    requires forall b | 0 <= b < NSIZES && b != Type(h, i) :: h'.sizebases[b] == h.sizebases[b]
    requires forall j | 0 <= j < NPAGEREFS ::
               && h'.prs[j] == h.prs[j].(nextSame := h'.prs[j].nextSame, nextAll := h'.prs[j].nextAll)
               && (j !in h.same[Type(h, i)] ==> h'.prs[j].nextSame == h.prs[j].nextSame)
    requires forall j: nat | j < NPAGEREFS :: InUse(h'.inuse, j) <==> j != i && InUse(h.inuse, j)
    requires h' == h.(prs := h'.prs, inuse := h'.inuse, sizebases := h'.sizebases, allbase := h'.allbase,
                      all := Remove(h.all, k), same := h.same[Type(h, i) := Remove(h.same[Type(h, i)], m)],
                      hand := h.hand + {PageOf(h, i)})
    ensures Left(h, h', i, k, m)
  {
    hide Linked;
    hide InUse;
    hide BlockType;
    hide PageAddr;
    assert forall j | 0 <= j < |h'.all| :: h'.all[j] == if j < k then h.all[j] else h.all[j + 1];
  }

  lemma MakePushEffect(h: Heap, h': Heap, i: nat, ptr: nat, o: nat)
    requires TableOk(h) && i in h.all && i < NPAGEREFS && Type(h, i) < NSIZES && ptr in h.live && h.live[ptr] == i
    requires h' == h.(prs := h.prs[i := h.prs[i].(nfree := h.prs[i].nfree + 1, offset := o)], mem := h'.mem,
                      free := h.free[i := [o] + h.free[i]], live := h.live - {ptr})
    requires h.prs[i].nfree == |h.free[i]|
    ensures PushEffect(h, h', i, ptr)
  {
    hide InUse;
    hide Size;
  }

  /** A block of type b became live; it was not live before, and no other block changed. */
  ghost predicate Allocated(h: Heap, h': Heap, b: nat, ptr: nat)
    requires b < NSIZES
  {
    ptr > 0 && ptr !in h.live && ptr in h'.live && Blocks(h') == Blocks(h)[ptr := Size(b)]
  }

  /** No page of type b has a free block. */
  ghost predicate NoneFree(h: Heap, b: nat) {
    b < |h.same| && forall j | 0 <= j < |h.same[b]| :: h.same[b][j] < |h.free| && h.free[h.same[b][j]] == []
  }

  /** Every pageref is in use. */
  ghost predicate TableFull(h: Heap) {
    |h.inuse| == INUSE_WORDS && forall j: nat | j < NPAGEREFS :: InUse(h.inuse, j)
  }

  lemma FullSupply(h: Heap, h': Heap)
    requires h'.inuse == h.inuse && TableFull(h')
    ensures TableFull(h)
  {
    hide InUse;
  }

  lemma SizeLists(h: Heap, b: nat)
    requires Inv0(h) && b < NSIZES
    ensures TableOk(h) && h.sizebases[b] == First(h.same[b])
  {
    hide ChainsOk;
    hide ApartOk;
    hide LiveOk;
    hide SupplyOk;
    hide InUse;
    assert Linked(h.sizebases[b], h.prs, true, h.same[b]);
  }

  lemma SizeWalk(h: Heap, b: nat, k: nat)
    requires Inv0(h) && b < NSIZES && k < |h.same[b]|
    ensures TableOk(h) && h.same[b][k] < NPAGEREFS && h.same[b][k] in h.all && Type(h, h.same[b][k]) == b
    ensures h.prs[h.same[b][k]].nextSame == First(h.same[b][k + 1..])
    ensures h.prs[h.same[b][k]].nfree == |h.free[h.same[b][k]]|
  {
    hide ApartOk;
    hide LiveOk;
    hide SupplyOk;
    hide InUse;
    hide FreeChain;
    assert Linked(h.sizebases[b], h.prs, true, h.same[b]);
    var i := h.same[b][k];
    assert i in h.same[b];
    assert PageOk(h.mem, h.prs[i], h.free[i]);
  }

  lemma PopBusy(h: Heap, h': Heap, i: nat, ptr: nat)
    requires PopEffect(h, h', i, ptr) && Busy(h)
    ensures Busy(h')
  {
    hide InUse;
    hide BlockType;
    hide Size;
    assert forall j: nat | j < NPAGEREFS :: Type(h', j) == Type(h, j);
  }

  lemma PopBlocks(h: Heap, h': Heap, i: nat, ptr: nat)
    requires PopEffect(h, h', i, ptr)
    ensures Blocks(h') == Blocks(h)[ptr := Size(Type(h, i))]
  {
    hide InUse;
    hide BlockType;
    hide Size;
    assert forall j: nat | j < NPAGEREFS :: Type(h', j) == Type(h, j);
  }

  lemma OneBlock(mem: Memory, page: nat, size: nat)
    requires size > 0 && Load(mem, page) == 0
    ensures FreeChain(mem, page, size, Descending(1, size), BlockOffset(0, size))
  {
    assert Descending(1, size) == [0];
  }

  lemma OutsideSet(mem: Memory, mem': Memory, a: nat, v: nat, lo: nat, hi: nat)
    requires (mem' == mem || SameOutside(mem, mem', lo, hi)) && lo <= a < hi
    ensures SameOutside(mem, mem'[a := v], lo, hi)
  {
  }

  lemma NextBlock(mem: Memory, mem': Memory, page: nat, b: nat, i: nat)
    requires b < NSIZES && 1 <= i < PerPage(b)
    requires FreeChain(mem, page, Size(b), Descending(i, Size(b)), BlockOffset(i - 1, Size(b)))
    requires mem' == mem[page + BlockOffset(i, Size(b)) := page + BlockOffset(i - 1, Size(b))]
    ensures FreeChain(mem', page, Size(b), Descending(i + 1, Size(b)), BlockOffset(i, Size(b)))
    ensures BlockOffset(i, Size(b)) < PAGE
  {
    hide FreeChain;
    hide Size;
    var size, o := Size(b), i * Size(b);
    BlockAt(i, b);
    DescendingBelow(i, size, o);
    assert Descending(i + 1, size) == [o] + Descending(i, size);
    BlockAt(i - 1, b);
    ChainPush(mem, mem', page, size, Descending(i, size), (i - 1) * size, o);
  }

  lemma DescendingBelow(i: nat, size: nat, o: nat)
    requires size > 0 && o == i * size
    ensures o !in Descending(i, size)
  {
    var list := Descending(i, size);
    forall k | 0 <= k < i
      ensures list[k] != o
    {
      assert list[k] == BlockOffset(i - 1 - k, size) == (i - 1 - k) * size < i * size;
    }
  }

  lemma HandPage(h: Heap, page: nat)
    requires Inv0(h) && page in h.hand
    ensures TableOk(h) && page % PAGE == 0 && page > 0
  {
    hide ListsOk;
    hide ChainsOk;
    hide ApartOk;
    hide LiveOk;
  }

  lemma NotListed(h: Heap, i: nat)
    requires Inv0(h) && i < NPAGEREFS && |h.inuse| == INUSE_WORDS && !InUse(h.inuse, i)
    ensures i !in h.all
  {
    hide ChainsOk;
    hide ApartOk;
    hide LiveOk;
    hide SupplyOk;
    hide Linked;
  }

  lemma FreshPageOk(mem: Memory, p: Pageref, page: nat, b: nat)
    requires b < NSIZES && page % PAGE == 0 && page > 0
    requires FreeChain(mem, page, Size(b), Descending(PerPage(b), Size(b)), BlockOffset(PerPage(b) - 1, Size(b)))
    requires p.pab == page + b && p.nfree == PerPage(b) && p.offset == BlockOffset(PerPage(b) - 1, Size(b))
    ensures PageOk(mem, p, Descending(PerPage(b), Size(b)))
  {
    hide FreeChain;
    hide Size;
    PackedPage(page, b);
  }

  lemma MakeEntered(h: Heap, h': Heap, i: nat, b: nat, page: nat)
    requires TableOk(h) && i < NPAGEREFS && i !in h.all && b < NSIZES && page % PAGE == 0 && page in h.hand
    requires |h'.inuse| == INUSE_WORDS
    requires forall j: nat | j < NPAGEREFS :: InUse(h'.inuse, j) <==> j == i || InUse(h.inuse, j)
    requires h' == h.(prs := h.prs[i := Pageref(h.sizebases[b], h.allbase, page + b,
                                                (PerPage(b) - 1) * Size(b), PerPage(b))],
                      inuse := h'.inuse, sizebases := h.sizebases[b := i], allbase := i, mem := h'.mem,
                      all := [i] + h.all, same := h.same[b := [i] + h.same[b]],
                      free := h.free[i := Descending(PerPage(b), Size(b))], hand := h.hand - {page})
    ensures Entered(h, h', i, b, page)
  {
    hide InUse;
    hide Descending;
    hide Size;
  }

  lemma EnteredBlocks(h: Heap, h1: Heap, i: nat, b: nat, page: nat)
    requires Entered(h, h1, i, b, page) && forall a | a in h.live :: h.live[a] != i
    ensures Blocks(h1) == Blocks(h)
  {
    hide InUse;
    hide BlockType;
    hide Size;
    assert forall j: nat | j < NPAGEREFS && j != i :: Type(h1, j) == Type(h, j);
  }

  lemma FreshNotLive(h: Heap, i: nat)
    requires Inv0(h) && i !in h.all
    ensures forall a | a in h.live :: h.live[a] != i
  {
    hide Inv0;
    forall a | a in h.live
      ensures h.live[a] != i
    {
      LiveAt(h, a);
    }
  }

  lemma EnteredBusy(h: Heap, h1: Heap, h2: Heap, i: nat, b: nat, page: nat, ptr: nat)
    requires Entered(h, h1, i, b, page) && h1.free[i] == Descending(PerPage(b), Size(b)) && Inv(h)
    requires PopEffect(h1, h2, i, ptr)
    ensures Busy(h2) && Allocated(h, h2, b, ptr)
  {
    hide Inv0;
    hide InUse;
    hide Size;
    hide Descending;
    hide PageAddr;
    hide BlockType;
    hide Blocks;
    PackedPage(page, b);
    PopBlocks(h1, h2, i, ptr);
    FreshNotLive(h, i);
    EnteredBlocks(h, h1, i, b, page);
    assert forall j: nat | j < NPAGEREFS && j != i :: Type(h2, j) == Type(h, j);
  }

  /** One block of entry i's page went from free to live; nothing else changed. */
  ghost predicate PopEffect(h: Heap, h': Heap, i: nat, ptr: nat) {
    && TableOk(h) && TableOk(h') && i < NPAGEREFS && Type(h, i) < NSIZES && ptr !in h.live && ptr > 0
    && SamePages(h, h') && h'.mem == h.mem && h'.live == h.live[ptr := i]
    && (forall j | 0 <= j < NPAGEREFS && j != i :: h'.free[j] == h.free[j])
    && |h'.free[i]| == |h.free[i]| - 1
  }

  lemma InTable(h: Heap, i: nat)
    requires Inv0(h) && i in h.all
    ensures TableOk(h) && i < NPAGEREFS
  {
  }

  lemma PopFacts(h: Heap, i: nat, tail: seq<nat>)
    requires Inv0(h) && i in h.all && h.free[i] != [] && tail == h.free[i][1..]
    ensures TableOk(h) && i < NPAGEREFS && Type(h, i) < NSIZES
    ensures h.prs[i].nfree == |tail| + 1 && h.prs[i].offset == h.free[i][0] < PAGE
    ensures Load(h.mem, PageOf(h, i) + h.prs[i].offset) == if tail == [] then 0 else PageOf(h, i) + tail[0]
    ensures tail != [] ==> tail[0] < PAGE
    ensures PageOf(h, i) > 0 && PageOf(h, i) + h.free[i][0] !in h.live
  {
    hide ListsOk;
    hide ApartOk;
    hide LiveOk;
    hide SupplyOk;
    hide InPage;
    hide Size;
    hide LinkAt;
    FreeAt(h, i, 0);
    assert PageOk(h.mem, h.prs[i], h.free[i]);
    ChainTail(h.mem, PageOf(h, i), Size(Type(h, i)), h.free[i], h.prs[i].offset, tail);
    InPageBound(h.free[i][0], Size(Type(h, i)));
    if tail != [] {
      FreeAt(h, i, 1);
      InPageBound(h.free[i][1], Size(Type(h, i)));
    }
    FreeNotLive(h, i);
  }

  lemma FreeNotLive(h: Heap, i: nat)
    requires Inv0(h) && i in h.all && h.free[i] != []
    ensures i < |h.prs| && PageOf(h, i) + h.free[i][0] !in h.live
  {
    hide Inv0;
    InTable(h, i);
    FreeAt(h, i, 0);
    if PageOf(h, i) + h.free[i][0] in h.live {
      LiveNotFree(h, PageOf(h, i) + h.free[i][0], i, 0);
    }
  }
}
