/**
 * kmalloc and kfree by any number of threads (kern/vm/kmalloc.c:397-633), as interleaved steps: one step per region
 * under kmalloc_spinlock, and one per call of alloc_kpages and free_kpages, which are made without it.
 */
module HeapRun {
  import opened PageRefs
  import opened Kheap
  import opened KheapSteps
  import opened Kmalloc

  type Thread = nat

  /** A thread between regions: in no call, about to ask for a page, with one to enter, or with pages to return. */
  datatype Pc =
    | Outside
    | WantsPage(sz: nat, b: nat)
    | HoldsPage(sz: nat, b: nat, page: nat)
    | MustReturn(pages: set<nat>)

  /** The heap, the large allocations, the threads, and every page ever supplied and given back. */
  datatype State = State(h: Heap, big: map<nat, nat>, pc: map<Thread, Pc>,
                         supplied: multiset<nat>, returned: multiset<nat>)

  datatype Action =
    | Try(t: Thread, sz: nat, b: nat, ok: bool, ptr: nat)         // first region of subpage_kmalloc
    | GetPage(t: Thread, page: nat) | NoPage(t: Thread)           // alloc_kpages(1)
    | Add(t: Thread, ok: bool, ptr: nat)                          // second region of subpage_kmalloc
    | FreeBlock(t: Thread, ptr: nat, emptied: bool, page: nat)    // subpage_kfree of one of its blocks
    | AllocBig(t: Thread, sz: nat, page: nat)                     // kmalloc of whole pages
    | FreeBig(t: Thread, ptr: nat)                                // subpage_kfree of whole pages: not its own
    | Return(t: Thread)                                           // free_kpages
    | Store(t: Thread, block: nat, a: nat, w: nat)                // a thread uses memory that was allocated
    | StoreBig(t: Thread, block: nat, a: nat, w: nat)

  function Held(pc: Pc): set<nat> {
    match pc
    case HoldsPage(_, _, page) => {page}
    case MustReturn(pages) => pages
    case _ => {}
  }

  ghost predicate Step(s: State, a: Action, s': State) {
    && a.t in s.pc
    && match a
       case Try(t, sz, b, ok, ptr) =>
         && s.pc[t] == Outside && sz < LARGEST && Fits(sz, b) && Tried(s.h, s'.h, b, ok, ptr)
         && s' == s.(h := s'.h, pc := s.pc[t := if ok then Outside else WantsPage(sz, b)])
       case GetPage(t, page) =>
         && s.pc[t].WantsPage? && page > 0 && page % PAGE == 0 && page !in s.h.out
         && s' == s.(h := s.h.(out := s.h.out + {page}, hand := s.h.hand + {page}),
                     pc := s.pc[t := HoldsPage(s.pc[t].sz, s.pc[t].b, page)], supplied := s.supplied + multiset{page})
       case NoPage(t) => s.pc[t].WantsPage? && s' == s.(pc := s.pc[t := Outside])
       case Add(t, ok, ptr) =>
         && s.pc[t].HoldsPage? && Added(s.h, s'.h, s.pc[t].b, s.pc[t].page, ok, ptr)
         && s' == s.(h := s'.h, pc := s.pc[t := if ok then Outside else MustReturn({s.pc[t].page})])
       case FreeBlock(t, ptr, emptied, page) =>
         && s.pc[t] == Outside && ptr in s.h.live && Freed(s.h, s'.h, ptr, emptied, page)
         && s' == s.(h := s'.h, pc := s.pc[t := if emptied then MustReturn({page}) else Outside])
       case AllocBig(t, sz, page) =>
         && s.pc[t] == Outside && sz >= LARGEST && page > 0 && page % PAGE == 0 && Pages(page, NPages(sz)) !! s.h.out
         && var ps := Pages(page, NPages(sz));
            s' == s.(h := s.h.(out := s.h.out + ps, lent := s.h.lent + ps), big := s.big[page := NPages(sz)],
                     supplied := s.supplied + multiset(ps))
       case FreeBig(t, ptr) =>
         && s.pc[t] == Outside && ptr in s.big
         && var ps := Pages(ptr, s.big[ptr]);
            s' == s.(h := s.h.(lent := s.h.lent - ps, hand := s.h.hand + ps), big := s.big - {ptr},
                     pc := s.pc[t := MustReturn(ps)])
       case Return(t) =>
         && s.pc[t].MustReturn?
         && var ps := s.pc[t].pages;
            s' == s.(h := s.h.(out := s.h.out - ps, hand := s.h.hand - ps), pc := s.pc[t := Outside],
                     returned := s.returned + multiset(ps))
       case Store(t, block, x, w) =>
         && s.pc[t] == Outside && block in Blocks(s.h) && block <= x < block + Blocks(s.h)[block]
         && s' == s.(h := s.h.(mem := s.h.mem[x := w]))
       case StoreBig(t, block, x, w) =>
         && s.pc[t] == Outside && block in s.big && block <= x < block + s.big[block] * PAGE
         && s' == s.(h := s.h.(mem := s.h.mem[x := w]))
  }

  /** The pages in the hands of threads are those they hold, and no page is in two hands. */
  ghost predicate HandOk(hand: set<nat>, pc: map<Thread, Pc>) {
    && (forall t | t in pc :: Held(pc[t]) <= hand)
    && (forall p | p in hand :: InHand(pc, p))
    && (forall t, u | t in pc && u in pc && t != u :: Held(pc[t]) !! Held(pc[u]))
  }

  ghost predicate InHand(pc: map<Thread, Pc>, p: nat) {
    exists t :: t in pc && p in Held(pc[t])
  }

  /** A thread in the middle of kmalloc still wants the smallest type that fits its request. */
  ghost predicate TypesOk(pc: map<Thread, Pc>) {
    forall t | t in pc :: (pc[t].WantsPage? || pc[t].HoldsPage?) ==> Fits(pc[t].sz, pc[t].b)
  }

  /** A page has been given back as often as it was supplied, but for once if it is out now. */
  ghost predicate Accounts(out: set<nat>, supplied: multiset<nat>, returned: multiset<nat>) {
    forall p: nat :: supplied[p] == returned[p] + if p in out then 1 else 0
  }

  ghost predicate RunOk(s: State) {
    && Inv(s.h) && BigOk(s.big, s.h.lent) && HandOk(s.h.hand, s.pc) && TypesOk(s.pc)
    && Accounts(s.h.out, s.supplied, s.returned)
  }

  ghost predicate Init(s: State) {
    && (exists mem :: s.h == EmptyHeap(mem)) && s.big == map[] && s.supplied == s.returned == multiset{}
    && forall t | t in s.pc :: s.pc[t] == Outside
  }

  lemma InitOk(s: State)
    requires Init(s)
    ensures RunOk(s)
  {
    hide Inv;
    var mem :| s.h == EmptyHeap(mem);
    EmptyHeapInv(mem);
  }

  // ---- the regions keep the heap's invariant ----

  lemma PoppedKeeps(h: Heap, h': Heap, i: nat, ptr: nat)
    requires Inv0(h) && Popped(h, h', i, ptr)
    ensures Inv0(h') && PopEffect(h, h', i, ptr)
  {
    hide Inv0;
    hide PageAddr;
    hide BlockType;
    hide InUse;
    hide Size;
    var tail := h.free[i][1..];
    PopFacts(h, i, tail);
    PopKeeps(h, h', i, tail);
  }

  lemma TriedKeeps(h: Heap, h': Heap, b: nat, ok: bool, ptr: nat)
    requires Inv(h) && b < NSIZES && Tried(h, h', b, ok, ptr)
    ensures Inv(h') && h'.out == h.out && h'.hand == h.hand && h'.lent == h.lent && h'.mem == h.mem
    ensures if ok then Allocated(h, h', b, ptr) else h' == h
  {
    hide Inv0;
    hide Busy;
    hide SamePages;
    hide Blocks;
    if ok {
      var k: nat :| TriedAt(h, h', b, k, ptr);
      var i := h.same[b][k];
      SizeWalk(h, b, k);
      PoppedKeeps(h, h', i, ptr);
      PopBusy(h, h', i, ptr);
      PopBlocks(h, h', i, ptr);
    }
  }

  lemma AddedKeeps(h: Heap, h': Heap, b: nat, page: nat, ok: bool, ptr: nat)
    requires Inv(h) && b < NSIZES && page in h.hand && Added(h, h', b, page, ok, ptr)
    ensures Inv(h') && h'.out == h.out && h'.lent == h.lent && h'.hand == if ok then h.hand - {page} else h.hand
    ensures SameOutside(h.mem, h'.mem, page, page + PAGE)
    ensures if ok then Allocated(h, h', b, ptr) else h' == h
  {
    hide Inv0;
    hide Busy;
    hide InUse;
    hide SameOutside;
    hide PageOk;
    hide Descending;
    hide Allocated;
    hide Size;
    if ok {
      var i: nat, h1 :| AddedAt(h, h1, h', i, b, page, ptr);
      EnteredKeeps(h, h1, i, b, page);
      PoppedKeeps(h1, h', i, ptr);
      EnteredBusy(h, h1, h', i, b, page, ptr);
    } else {
      NothingOutside(h.mem, page, page + PAGE);
    }
  }

  lemma NothingOutside(mem: Memory, lo: nat, hi: nat)
    ensures SameOutside(mem, mem, lo, hi)
  {
  }

  lemma FreedKeeps(h: Heap, h': Heap, ptr: nat, emptied: bool, page: nat)
    requires Inv(h) && ptr in h.live && Freed(h, h', ptr, emptied, page)
    ensures Inv(h') && Blocks(h') == Blocks(h) - {ptr} && h'.out == h.out && h'.lent == h.lent
    ensures page in h.out && page !in h.hand && h'.hand == if emptied then h.hand + {page} else h.hand
    ensures emptied <==> forall a | a in h.live && a != ptr :: !(page <= a < page + PAGE)
    ensures page <= ptr < page + PAGE
    ensures ptr in Blocks(h) && SameOutside(h.mem, h'.mem, ptr, ptr + Blocks(h)[ptr])
  {
    hide Inv0;
    hide Busy;
    hide InUse;
    hide SameOutside;
    hide Linked;
    hide Left;
    hide PushEffect;
    hide Blocks;
    hide BlockFreed;
    hide PageAddr;
    hide BlockType;
    hide Size;
    var h1 :| FreedAt(h, h1, h', ptr, emptied, page);
    var i := h.live[ptr];
    BlockFreedKeeps(h, h1, ptr);
    FoundRight(h, ptr, i);
    PushFrame(h, h1, i, ptr);
    PushedEmpty(h, h1, i, ptr);
    if emptied {
      var k: nat, m: nat :| Left(h1, h', i, k, m);
      LeftKeeps(h1, h', i, k, m);
      DroppedBusy(h, h1, h', i, ptr, k, m);
      LeftMem(h1, h', i, k, m);
    } else {
      PushedBusy(h, h1, i, ptr);
    }
  }

  lemma LeftMem(h: Heap, h': Heap, i: nat, k: nat, m: nat)
    requires Left(h, h', i, k, m)
    ensures h'.mem == h.mem
  {
    hide InUse;
    hide Linked;
  }

  lemma BlockFreedKeeps(h: Heap, h1: Heap, ptr: nat)
    requires Inv0(h) && BlockFreed(h, h1, ptr)
    ensures Inv0(h1) && PushEffect(h, h1, h.live[ptr], ptr)
    ensures ptr in Blocks(h) && SameOutside(h.mem, h1.mem, ptr, ptr + Blocks(h)[ptr])
    ensures PageOf(h, h.live[ptr]) <= ptr < PageOf(h, h.live[ptr]) + PAGE && h.live[ptr] in h.all
  {
    hide Inv0;
    hide InPage;
    hide SameOutside;
    hide PageAddr;
    hide BlockType;
    hide Size;
    LiveAt(h, ptr);
    var i := h.live[ptr];
    var o := ptr - PageOf(h, i);
    PushFacts(h, i, o);
    PushKeeps(h, h1, i, o, h1.mem);
    MakePushEffect(h, h1, i, ptr, o);
  }

  lemma LentToHand(h: Heap, h': Heap, ps: set<nat>)
    requires Inv(h) && ps <= h.lent && h' == h.(lent := h.lent - ps, hand := h.hand + ps)
    ensures Inv(h')
  {
    hide Linked;
    hide InUse;
    hide PageOk;
    hide LiveOk;
    hide Size;
    hide IsHeapPage;
    hide PageAddr;
    hide BlockType;
    forall p | p in h'.out && p !in h'.hand && p !in h'.lent
      ensures IsHeapPage(h', p)
    {
      SameHeapPage(h, h', p);
    }
    SameHeapKeeps(h, h');
  }

  lemma Lent(h: Heap, h': Heap, page: nat, n: nat)
    requires Inv(h) && page > 0 && page % PAGE == 0 && Pages(page, n) !! h.out
    requires h' == h.(out := h.out + Pages(page, n), lent := h.lent + Pages(page, n))
    ensures Inv(h')
  {
    hide Inv;
    hide Pages;
    var ps := Pages(page, n);
    LentOut(h);
    var h1 := h.(out := h.out + ps, hand := h.hand + ps);
    SupplyKeeps(h, h1, page, n);
    assert h1.hand - ps == h.hand;
    LendKeeps(h, h1, h', ps);
  }

  lemma StoredKeeps(h: Heap, h': Heap, block: nat, x: nat, w: nat)
    requires Inv(h) && block in Blocks(h) && block <= x < block + Blocks(h)[block] && h' == h.(mem := h.mem[x := w])
    ensures Inv(h') && Blocks(h') == Blocks(h)
  {
    hide Inv0;
    hide Busy;
    hide Size;
    hide PageAddr;
    hide BlockType;
    LiveAt(h, block);
    InTable(h, h.live[block]);
    StoreKeeps(h, h', block, h'.mem);
    StoreBusy(h, h');
  }

  /** The address of the page an address lies in. */
  lemma PageOfBig(p: nat, n: nat, x: nat) returns (q: nat)
    requires p % PAGE == 0 && p <= x < p + n * PAGE
    ensures q in Pages(p, n) && q % PAGE == 0 && q <= x < q + PAGE
  {
    q := x - x % PAGE;
    PageWithin(q, p, n);
  }

  lemma BigStoredKeeps(h: Heap, h': Heap, big: map<nat, nat>, p: nat, x: nat, w: nat)
    requires Inv(h) && BigOk(big, h.lent) && p in big && p <= x < p + big[p] * PAGE && h' == h.(mem := h.mem[x := w])
    ensures Inv(h') && Blocks(h') == Blocks(h)
  {
    hide Inv0;
    hide Busy;
    hide Pages;
    hide Size;
    BigOffHeap(h, big, p);
    var q := PageOfBig(p, big[p], x);
    assert q in h.lent;
    StoredIn(h.mem, h'.mem, x, w, q);
    FrameKeeps(h, h', q);
    FrameInTable(h);
    StoreBusy(h, h');
  }

  lemma FrameInTable(h: Heap)
    requires Inv0(h)
    ensures TableOk(h)
  {
  }

  lemma StoredIn(mem: Memory, mem': Memory, x: nat, w: nat, page: nat)
    requires mem' == mem[x := w] && page <= x < page + PAGE
    ensures SameOutside(mem, mem', page, page + PAGE)
  {
  }

  /** Writes to a page that is not the heap's leave the heap alone. */
  lemma FrameKeeps(h: Heap, h': Heap, page: nat)
    requires Inv0(h) && page % PAGE == 0 && page in h.lent && SameOutside(h.mem, h'.mem, page, page + PAGE)
    requires h' == h.(mem := h'.mem)
    ensures Inv0(h')
  {
    hide Linked;
    hide InUse;
    hide PageOk;
    hide SameOutside;
    hide Size;
    hide PageAddr;
    hide BlockType;
    hide LiveOk;
    forall j: nat | j in h.all
      ensures PageOk(h'.mem, h'.prs[j], h'.free[j])
    {
      PageFrame(h, h'.mem, j, page);
    }
    StoreLive(h, h');
    SameMemSupply(h, h');
  }

  lemma SameMemSupply(h: Heap, h': Heap)
    requires TableOk(h) && SupplyOk(h) && h' == h.(mem := h'.mem)
    ensures TableOk(h') && SupplyOk(h')
  {
    hide PageAddr;
    forall p | p in h'.out && p !in h'.hand && p !in h'.lent
      ensures IsHeapPage(h', p)
    {
      assert IsHeapPage(h, p);
      var i: nat :| i in h.all && PageOf(h, i) == p;
      assert PageOf(h', i) == p;
    }
  }

  // ---- the threads ----

  /** A thread exchanges what it holds. */
  lemma HandMove(hand: set<nat>, pc: map<Thread, Pc>, hand': set<nat>, t: Thread, q: Pc)
    requires HandOk(hand, pc) && t in pc && hand' == hand - Held(pc[t]) + Held(q)
    requires Held(q) !! hand - Held(pc[t])
    ensures HandOk(hand', pc[t := q])
  {
    hide Held;
    var pc' := pc[t := q];
    forall p | p in hand'
      ensures InHand(pc', p)
    {
      if p in Held(q) {
        assert p in Held(pc'[t]);
      } else {
        assert InHand(pc, p);
        var u :| u in pc && p in Held(pc[u]);
        assert u != t && p in Held(pc'[u]);
      }
    }
    forall u | u in pc'
      ensures Held(pc'[u]) <= hand'
    {
    }
  }

  lemma AccountsSupply(out: set<nat>, supplied: multiset<nat>, returned: multiset<nat>, ps: set<nat>)
    requires Accounts(out, supplied, returned) && ps !! out
    ensures Accounts(out + ps, supplied + multiset(ps), returned)
  {
  }

  lemma AccountsReturn(out: set<nat>, supplied: multiset<nat>, returned: multiset<nat>, ps: set<nat>)
    requires Accounts(out, supplied, returned) && ps <= out
    ensures Accounts(out - ps, supplied, returned + multiset(ps))
  {
  }

  lemma HandsApart(h: Heap)
    requires Inv(h)
    ensures h.hand <= h.out && h.lent <= h.out && h.hand !! h.lent
  {
    hide ListsOk;
    hide ChainsOk;
    hide ApartOk;
    hide LiveOk;
    hide Busy;
  }

  lemma OneOf(p: nat)
    ensures multiset({p}) == multiset{p}
  {
  }

  /** The steps of subpage_kmalloc and subpage_kfree on its own pages. */
  lemma BlockStepKeeps(s: State, a: Action, s': State)
    requires RunOk(s) && Step(s, a, s') && (a.Try? || a.Add? || a.FreeBlock?)
    ensures RunOk(s')
  {
    hide Inv;
    hide BigOk;
    hide Accounts;
    hide HandOk;
    hide Tried;
    hide Added;
    hide Freed;
    hide Fits;
    hide Allocated;
    hide Blocks;
    hide SameOutside;
    TypesAt(s, a);
    HandsApart(s.h);
    HeldInHand(s, a.t);
    match a {
      case Try(t, sz, b, ok, ptr) =>
        OneFits(sz, b);
        TriedKeeps(s.h, s'.h, b, ok, ptr);
      case Add(t, ok, ptr) =>
        AddedKeeps(s.h, s'.h, s.pc[t].b, s.pc[t].page, ok, ptr);
      case FreeBlock(t, ptr, emptied, page) =>
        FreedKeeps(s.h, s'.h, ptr, emptied, page);
    }
    HandMove(s.h.hand, s.pc, s'.h.hand, a.t, s'.pc[a.t]);
    assert s'.pc == s.pc[a.t := s'.pc[a.t]];
  }

  lemma TypesAt(s: State, a: Action)
    requires RunOk(s) && a.t in s.pc
    ensures s.pc[a.t].WantsPage? || s.pc[a.t].HoldsPage? ==>
              Fits(s.pc[a.t].sz, s.pc[a.t].b) && s.pc[a.t].b < NSIZES && s.pc[a.t].sz <= Size(s.pc[a.t].b)
  {
    hide Inv;
    hide BigOk;
    hide Accounts;
    hide HandOk;
  }

  lemma HeldInHand(s: State, t: Thread)
    requires RunOk(s) && t in s.pc
    ensures Held(s.pc[t]) <= s.h.hand
  {
    hide Inv;
    hide BigOk;
    hide Accounts;
  }

  lemma GetPageKeeps(s: State, a: Action, s': State)
    requires RunOk(s) && Step(s, a, s') && a.GetPage?
    ensures RunOk(s')
  {
    hide Inv;
    hide BigOk;
    hide Accounts;
    hide HandOk;
    hide Pages;
    hide Blocks;
    var t, h := a.t, s.h;
    HandsApart(h);
    HeldInHand(s, t);
    OnePage(a.page);
    OneOf(a.page);
    SupplyKeeps(h, s'.h, a.page, 1);
    AccountsSupply(h.out, s.supplied, s.returned, {a.page});
    HandMove(h.hand, s.pc, s'.h.hand, t, s'.pc[t]);
    assert s'.pc == s.pc[t := s'.pc[t]];
  }

  lemma NoPageKeeps(s: State, a: Action, s': State)
    requires RunOk(s) && Step(s, a, s') && a.NoPage?
    ensures RunOk(s')
  {
    hide Inv;
    hide BigOk;
    hide Accounts;
    hide HandOk;
    hide Pages;
    hide Blocks;
    var t, h := a.t, s.h;
    HandsApart(h);
    HeldInHand(s, t);
    HandMove(h.hand, s.pc, s'.h.hand, t, s'.pc[t]);
    assert s'.pc == s.pc[t := s'.pc[t]];
  }

  lemma AllocBigKeeps(s: State, a: Action, s': State)
    requires RunOk(s) && Step(s, a, s') && a.AllocBig?
    ensures RunOk(s')
  {
    hide Inv;
    hide BigOk;
    hide Accounts;
    hide HandOk;
    hide Pages;
    hide Blocks;
    var t, h := a.t, s.h;
    HandsApart(h);
    HeldInHand(s, t);
    var n := NPages(a.sz);
    Lent(h, s'.h, a.page, n);
    BigAdd(s.big, h.lent, h.out, a.page, n);
    AccountsSupply(h.out, s.supplied, s.returned, Pages(a.page, n));
  }

  lemma FreeBigKeeps(s: State, a: Action, s': State)
    requires RunOk(s) && Step(s, a, s') && a.FreeBig?
    ensures RunOk(s')
  {
    hide Inv;
    hide BigOk;
    hide Accounts;
    hide HandOk;
    hide Pages;
    hide Blocks;
    var t, h := a.t, s.h;
    HandsApart(h);
    HeldInHand(s, t);
    BigDrop(s.big, h.lent, a.ptr);
    LentToHand(h, s'.h, Pages(a.ptr, s.big[a.ptr]));
    HandMove(h.hand, s.pc, s'.h.hand, t, s'.pc[t]);
    assert s'.pc == s.pc[t := s'.pc[t]];
  }

  lemma ReturnKeeps(s: State, a: Action, s': State)
    requires RunOk(s) && Step(s, a, s') && a.Return?
    ensures RunOk(s')
  {
    hide Inv;
    hide BigOk;
    hide Accounts;
    hide HandOk;
    hide Pages;
    hide Blocks;
    var t, h := a.t, s.h;
    HandsApart(h);
    HeldInHand(s, t);
    GiveBackKeeps(h, s'.h, s.pc[t].pages);
    AccountsReturn(h.out, s.supplied, s.returned, s.pc[t].pages);
    HandMove(h.hand, s.pc, s'.h.hand, t, s'.pc[t]);
    assert s'.pc == s.pc[t := s'.pc[t]];
  }

  lemma StoreStepKeeps(s: State, a: Action, s': State)
    requires RunOk(s) && Step(s, a, s') && (a.Store? || a.StoreBig?)
    ensures RunOk(s')
  {
    hide Inv;
    hide BigOk;
    hide Accounts;
    hide HandOk;
    hide TypesOk;
    hide Blocks;
    match a {
      case Store(_, block, x, w) => StoredKeeps(s.h, s'.h, block, x, w);
      case StoreBig(_, block, x, w) => BigStoredKeeps(s.h, s'.h, s.big, block, x, w);
    }
  }

  /** Every step of every thread keeps the invariant. */
  lemma StepKeeps(s: State, a: Action, s': State)
    requires RunOk(s) && Step(s, a, s')
    ensures RunOk(s')
  {
    hide RunOk;
    hide Step;
    match a {
      case Try(_, _, _, _, _) => BlockStepKeeps(s, a, s');
      case Add(_, _, _) => BlockStepKeeps(s, a, s');
      case FreeBlock(_, _, _, _) => BlockStepKeeps(s, a, s');
      case GetPage(_, _) => GetPageKeeps(s, a, s');
      case NoPage(_) => NoPageKeeps(s, a, s');
      case AllocBig(_, _, _) => AllocBigKeeps(s, a, s');
      case FreeBig(_, _) => FreeBigKeeps(s, a, s');
      case Return(_) => ReturnKeeps(s, a, s');
      case Store(_, _, _, _) => StoreStepKeeps(s, a, s');
      case StoreBig(_, _, _, _) => StoreStepKeeps(s, a, s');
    }
  }

  ghost predicate IsRun(states: seq<State>, acts: seq<Action>) {
    && |states| == |acts| + 1 && Init(states[0])
    && forall k | 0 <= k < |acts| :: Step(states[k], acts[k], states[k + 1])
  }

  lemma {:induction false} RunInv(states: seq<State>, acts: seq<Action>, k: nat)
    requires IsRun(states, acts) && k < |states|
    ensures RunOk(states[k])
  {
    hide RunOk;
    hide Step;
    if k == 0 {
      InitOk(states[0]);
    } else {
      RunInv(states, acts, k - 1);
      StepKeeps(states[k - 1], acts[k - 1], states[k]);
    }
  }

  // ---- what every run has ----

  /** In every state of every run, allocated memory does not overlap, and no block in use is on a free list. */
  lemma AllocationsApart(states: seq<State>, acts: seq<Action>, k: nat, a: nat, a': nat)
    requires IsRun(states, acts) && k < |states| && a != a'
    ensures var s := states[k];
            && (a in Blocks(s.h) && a' in Blocks(s.h) ==>
                  a + Blocks(s.h)[a] <= a' || a' + Blocks(s.h)[a'] <= a)
            && (a in Blocks(s.h) && a' in s.big ==> a + Blocks(s.h)[a] <= a' || a' + s.big[a'] * PAGE <= a)
            && (a in s.big && a' in s.big ==> a + s.big[a] * PAGE <= a' || a' + s.big[a'] * PAGE <= a)
            && (a in Blocks(s.h) ==> a % 16 == 0)
  {
    hide Inv0;
    hide Busy;
    hide Step;
    hide BigOk;
    hide Size;
    RunInv(states, acts, k);
    var s := states[k];
    if a in s.h.live && a' in s.h.live {
      LiveApart(s.h, a, a');
    }
    if a in s.h.live && a' in s.big {
      BlockApartFromBig(s.h, s.big, a, a');
    }
    if a in s.big && a' in s.big {
      BigPages(s.h);
      BigsApart(s.big, s.h.lent, s.h.out, a, a');
    }
    if a in s.h.live {
      LiveAt(s.h, a);
      BlockAddrAligned(PageOf(s.h, s.h.live[a]), a, Type(s.h, s.h.live[a]));
    }
  }

  lemma BigPages(h: Heap)
    requires Inv0(h)
    ensures h.lent <= h.out && forall x | x in h.out :: x % PAGE == 0
  {
    hide ListsOk;
    hide ChainsOk;
    hide ApartOk;
    hide LiveOk;
  }

  /** The free list of a page is one of blocks that nobody has. */
  lemma FreeIsNotUsed(states: seq<State>, acts: seq<Action>, k: nat, i: nat, n: nat, a: nat)
    requires IsRun(states, acts) && k < |states| && i in states[k].h.all
    requires i < |states[k].h.free| && n < |states[k].h.free[i]| && a in Blocks(states[k].h)
    ensures i < |states[k].h.prs| && PageOf(states[k].h, i) + states[k].h.free[i][n] != a
  {
    hide Inv0;
    hide Busy;
    hide Step;
    hide BigOk;
    RunInv(states, acts, k);
    InTable(states[k].h, i);
    LiveNotFree(states[k].h, a, i, n);
  }

  /**
   * In every state of every run: a page is held by at most one thread, the pages in hand are those held by threads,
   * and each page has been given back once for each time it was supplied, but for the last time if it is still out.
   */
  lemma PagesAccounted(states: seq<State>, acts: seq<Action>, k: nat, p: nat)
    requires IsRun(states, acts) && k < |states|
    ensures var s := states[k];
            && s.supplied[p] == s.returned[p] + (if p in s.h.out then 1 else 0)
            && (p in s.h.hand <==> InHand(s.pc, p))
            && (forall t, u | t in s.pc && u in s.pc && p in Held(s.pc[t]) && p in Held(s.pc[u]) :: t == u)
  {
    hide Inv;
    hide BigOk;
    hide Step;
    RunInv(states, acts, k);
  }

  /** A page goes back to the supplier exactly when the thread that has to return it does. */
  lemma PageGoes(states: seq<State>, acts: seq<Action>, k: nat, p: nat)
    requires IsRun(states, acts) && k < |acts| && p in states[k].h.out
    ensures p !in states[k + 1].h.out <==>
              acts[k].Return? && acts[k].t in states[k].pc && p in Held(states[k].pc[acts[k].t])
  {
    hide Inv;
    hide BigOk;
    hide Tried;
    hide Added;
    hide Freed;
    hide Blocks;
    hide Pages;
    hide Fits;
    RunInv(states, acts, k);
    var s, a, s' := states[k], acts[k], states[k + 1];
    TypesAt(s, a);
    HeldInHand(s, a.t);
    match a {
      case Try(t, sz, b, ok, ptr) =>
        OneFits(sz, b);
        LittleWaste(sz, b);
        TriedKeeps(s.h, s'.h, b, ok, ptr);
      case Add(t, ok, ptr) =>
        LittleWaste(s.pc[t].sz, s.pc[t].b);
        AddedKeeps(s.h, s'.h, s.pc[t].b, s.pc[t].page, ok, ptr);
      case FreeBlock(t, ptr, emptied, page) => FreedKeeps(s.h, s'.h, ptr, emptied, page);
      case _ =>
    }
  }

  /** A thread has to return a heap page exactly when it freed the last block in use there. */
  lemma LastBlockFreesPage(states: seq<State>, acts: seq<Action>, k: nat)
    requires IsRun(states, acts) && k < |acts| && acts[k].FreeBlock?
    ensures var s, a, s' := states[k], acts[k], states[k + 1];
            && a.t in s'.pc && Blocks(s'.h) == Blocks(s.h) - {a.ptr} && a.page <= a.ptr < a.page + PAGE
            && (s'.pc[a.t] == MustReturn({a.page}) <==>
                  forall x | x in Blocks(s.h) && x != a.ptr :: !(a.page <= x < a.page + PAGE))
  {
    hide Inv;
    hide BigOk;
    hide HandOk;
    hide TypesOk;
    hide Accounts;
    hide Freed;
    hide SameOutside;
    hide Blocks;
    RunInv(states, acts, k);
    var s, a, s' := states[k], acts[k], states[k + 1];
    FreedKeeps(s.h, s'.h, a.ptr, a.emptied, a.page);
    forall x: nat
      ensures x in Blocks(s.h) <==> x in s.h.live
    {
      BlocksAreLive(s.h, x);
    }
  }

  /**
   * Whatever the other threads did since it asked: the block a thread gets is a new one, as large as it asked for and,
   * unless it is the smallest, less than twice that, and everybody else's blocks are as before.
   */
  lemma BlockIsNew(states: seq<State>, acts: seq<Action>, k: nat)
    requires IsRun(states, acts) && k < |acts| && (acts[k].Try? || acts[k].Add?) && acts[k].ok
    ensures var s, a, s' := states[k], acts[k], states[k + 1];
            && a.t in s.pc && (a.Add? ==> s.pc[a.t].HoldsPage?) && a.ptr != 0 && a.ptr !in Blocks(s.h)
            && a.ptr in Blocks(s'.h) && Blocks(s'.h) == Blocks(s.h)[a.ptr := Blocks(s'.h)[a.ptr]]
            && var sz, size := if a.Try? then a.sz else s.pc[a.t].sz, Blocks(s'.h)[a.ptr];
               sz <= size && (size == 16 || size < 2 * sz)
  {
    hide Inv;
    hide BigOk;
    hide Tried;
    hide Added;
    hide Fits;
    hide Size;
    RunInv(states, acts, k);
    var s, a, s' := states[k], acts[k], states[k + 1];
    TypesAt(s, a);
    HeldInHand(s, a.t);
    match a {
      case Try(t, sz, b, ok, ptr) =>
        OneFits(sz, b);
        LittleWaste(sz, b);
        TriedKeeps(s.h, s'.h, b, ok, ptr);
      case Add(t, ok, ptr) =>
        LittleWaste(s.pc[t].sz, s.pc[t].b);
        AddedKeeps(s.h, s'.h, s.pc[t].b, s.pc[t].page, ok, ptr);
    }
  }

  /** A large allocation is a new one of whole pages, as many as it takes and not one more. */
  lemma BigIsNew(states: seq<State>, acts: seq<Action>, k: nat)
    requires IsRun(states, acts) && k < |acts| && acts[k].AllocBig?
    ensures var s, a, s' := states[k], acts[k], states[k + 1];
            && a.page % 4096 == 0 && a.page != 0 && a.page !in s.big && a.page in s'.big
            && (s'.big[a.page] - 1) * 4096 < a.sz <= s'.big[a.page] * 4096
            && s'.big == s.big[a.page := s'.big[a.page]] && Blocks(s'.h) == Blocks(s.h)
  {
    hide Inv;
    hide Blocks;
    hide Pages;
    hide Tried;
    hide Added;
    hide Freed;
    RunInv(states, acts, k);
    BigStep(states[k], acts[k], states[k + 1]);
  }

  lemma BigStep(s: State, a: Action, s': State)
    requires RunOk(s) && Step(s, a, s') && a.AllocBig?
    ensures a.page % 4096 == 0 && a.page != 0 && a.page !in s.big && s'.big == s.big[a.page := NPages(a.sz)]
    ensures a.sz >= LARGEST && Blocks(s'.h) == Blocks(s.h)
  {
    hide Inv;
    hide Pages;
    hide Tried;
    hide Added;
    hide Freed;
    if a.page in s.big {
      FirstPage(a.page, s.big[a.page]);
      FirstPage(a.page, NPages(a.sz));
      BigOut(s, a.page);
    }
  }

  lemma BigOut(s: State, p: nat)
    requires RunOk(s) && p in s.big
    ensures p in s.h.out
  {
    BigPages(s.h);
    hide Inv;
    FirstPage(p, s.big[p]);
  }

  /** The memory of an allocation: n bytes from a. */
  ghost predicate SameBytes(mem: Memory, mem': Memory, a: nat, n: nat) {
    forall x: nat | a <= x < a + n :: Load(mem', x) == Load(mem, x)
  }

  lemma OutsideBytes(mem: Memory, mem': Memory, lo: nat, hi: nat, a: nat, n: nat)
    requires SameOutside(mem, mem', lo, hi) && (a + n <= lo || hi <= a)
    ensures SameBytes(mem, mem', a, n)
  {
  }

  lemma StoreElsewhere(mem: Memory, mem': Memory, x: nat, w: nat, a: nat, n: nat)
    requires mem' == mem[x := w] && !(a <= x < a + n)
    ensures SameBytes(mem, mem', a, n)
  {
  }

  /** A block in use is not in a page that a thread holds. */
  lemma BlockNotInHand(h: Heap, a: nat, page: nat)
    requires Inv0(h) && a in h.live && page in h.hand
    ensures a in Blocks(h) && (a + Blocks(h)[a] <= page || page + PAGE <= a)
  {
    hide ListsOk;
    hide ChainsOk;
    hide ApartOk;
    hide LiveOk;
    hide IsHeapPage;
    hide Size;
    hide InPage;
    LiveAt(h, a);
    var i := h.live[a];
    LiveInPage(a - PageOf(h, i), Type(h, i));
    PagesApart(PageOf(h, i), page);
  }

  /**
   * A block stays with whoever has it: until somebody frees that very block, its size does not change, and no step
   * but a store into it changes its contents.
   */
  lemma BlockUndisturbed(states: seq<State>, acts: seq<Action>, k: nat, a: nat)
    requires IsRun(states, acts) && k < |acts| && a in Blocks(states[k].h)
    requires !(acts[k].FreeBlock? && acts[k].ptr == a)
    ensures a in Blocks(states[k + 1].h) && Blocks(states[k + 1].h)[a] == Blocks(states[k].h)[a]
    ensures !(acts[k].Store? && acts[k].block == a) ==>
              SameBytes(states[k].h.mem, states[k + 1].h.mem, a, Blocks(states[k].h)[a])
  {
    hide RunOk;
    hide Step;
    hide Blocks;
    hide SameBytes;
    RunInv(states, acts, k);
    Undisturbed(states[k], acts[k], states[k + 1], a);
  }

  lemma Undisturbed(s: State, a: Action, s': State, x: nat)
    requires RunOk(s) && Step(s, a, s') && x in Blocks(s.h) && !(a.FreeBlock? && a.ptr == x)
    ensures x in Blocks(s'.h) && Blocks(s'.h)[x] == Blocks(s.h)[x]
    ensures !(a.Store? && a.block == x) ==> SameBytes(s.h.mem, s'.h.mem, x, Blocks(s.h)[x])
  {
    if a.Try? || a.Add? || a.FreeBlock? {
      UndisturbedByBlocks(s, a, s', x);
    } else if a.Store? || a.StoreBig? {
      UndisturbedByStores(s, a, s', x);
    } else {
      hide Inv;
      hide BigOk;
      hide Blocks;
      hide Pages;
      SupplyBlocks(s.h, s'.h);
    }
  }

  lemma UndisturbedByBlocks(s: State, a: Action, s': State, x: nat)
    requires RunOk(s) && Step(s, a, s') && (a.Try? || a.Add? || a.FreeBlock?)
    requires x in Blocks(s.h) && !(a.FreeBlock? && a.ptr == x)
    ensures x in Blocks(s'.h) && Blocks(s'.h)[x] == Blocks(s.h)[x]
    ensures SameBytes(s.h.mem, s'.h.mem, x, Blocks(s.h)[x])
  {
    hide Inv0;
    hide Busy;
    hide BigOk;
    hide Tried;
    hide Added;
    hide Freed;
    hide Fits;
    hide SameBytes;
    hide SameOutside;
    hide Blocks;
    var n := Blocks(s.h)[x];
    BlocksAreLive(s.h, x);
    TypesAt(s, a);
    HeldInHand(s, a.t);
    match a {
      case Try(t, sz, b, ok, ptr) =>
        OneFits(sz, b);
        TriedKeeps(s.h, s'.h, b, ok, ptr);
        BlocksAreLive(s.h, ptr);
        SameMem(s.h.mem, x, n);
      case Add(t, ok, ptr) =>
        AddedKeeps(s.h, s'.h, s.pc[t].b, s.pc[t].page, ok, ptr);
        BlocksAreLive(s.h, ptr);
        BlockNotInHand(s.h, x, s.pc[t].page);
        OutsideBytes(s.h.mem, s'.h.mem, s.pc[t].page, s.pc[t].page + PAGE, x, n);
      case FreeBlock(t, ptr, emptied, page) =>
        FreedKeeps(s.h, s'.h, ptr, emptied, page);
        BlocksApart2(s.h, x, ptr);
        OutsideBytes(s.h.mem, s'.h.mem, ptr, ptr + Blocks(s.h)[ptr], x, n);
    }
  }

  lemma BlocksAreLive(h: Heap, x: nat)
    ensures x in Blocks(h) <==> x in h.live
  {
  }

  lemma SameMem(mem: Memory, a: nat, n: nat)
    ensures SameBytes(mem, mem, a, n)
  {
  }

  lemma BlocksApart2(h: Heap, a: nat, a': nat)
    requires Inv0(h) && a in h.live && a' in h.live && a != a'
    ensures a in Blocks(h) && a' in Blocks(h) && (a + Blocks(h)[a] <= a' || a' + Blocks(h)[a'] <= a)
  {
    hide Inv0;
    hide Size;
    LiveApart(h, a, a');
  }

  lemma UndisturbedByStores(s: State, a: Action, s': State, x: nat)
    requires RunOk(s) && Step(s, a, s') && (a.Store? || a.StoreBig?) && x in Blocks(s.h)
    ensures x in Blocks(s'.h) && Blocks(s'.h)[x] == Blocks(s.h)[x]
    ensures !(a.Store? && a.block == x) ==> SameBytes(s.h.mem, s'.h.mem, x, Blocks(s.h)[x])
  {
    hide Inv0;
    hide Busy;
    hide BigOk;
    hide SameBytes;
    hide Blocks;
    BlocksAreLive(s.h, x);
    match a {
      case Store(_, block, y, w) =>
        BlocksAreLive(s.h, block);
        StoredKeeps(s.h, s'.h, block, y, w);
        if block != x {
          BlocksApart2(s.h, x, block);
          StoreElsewhere(s.h.mem, s'.h.mem, y, w, x, Blocks(s.h)[x]);
        }
      case StoreBig(_, block, y, w) =>
        BigStoredKeeps(s.h, s'.h, s.big, block, y, w);
        BlockApartFromBig(s.h, s.big, x, block);
        StoreElsewhere(s.h.mem, s'.h.mem, y, w, x, Blocks(s.h)[x]);
    }
  }
}
