/**
 * The pageref table of the kernel heap (kern/vm/kmalloc.c:100-182): its in-use map, a sequence of 32-bit words
 * with bit j of a word as its element j, and the linked lists threaded through the table.
 */
module PageRefs {
  import opened Common

  const NPAGEREFS := 256
  const INUSE_WORDS := 8
  const NONE := -1

  /** struct pageref; list links are table indices, NONE for the end of a list. */
  datatype Pageref = Pageref(nextSame: int, nextAll: int, pab: nat, offset: nat, nfree: nat)

  type Word = w: seq<bool> | |w| == 32 witness seq(32, _ => false)

  function FullWord(): Word {
    seq(32, _ => true)
  }

  predicate InUse(words: seq<Word>, i: nat)
    requires |words| == INUSE_WORDS && i < NPAGEREFS
  {
    words[i / 32][i % 32]
  }

  lemma WordIsFull(words: seq<Word>, w: nat)
    requires |words| == INUSE_WORDS && w < INUSE_WORDS && forall j: nat | j < 32 * w + 32 :: InUse(words, j)
    ensures words[w] == FullWord()
  {
    assert forall j | 0 <= j < 32 :: words[w][j] == InUse(words, 32 * w + j);
  }

  /** allocpageref: the first entry not in use, now marked; fails exactly when all are in use. */
  method AllocPageref(words: seq<Word>) returns (words': seq<Word>, i: int)
    requires |words| == INUSE_WORDS
    ensures |words'| == INUSE_WORDS && NONE <= i < NPAGEREFS
    ensures i == NONE ==> words' == words && forall j: nat | j < NPAGEREFS :: InUse(words, j)
    ensures i != NONE ==> !InUse(words, i) && forall j: nat | j < i :: InUse(words, j)
    ensures i != NONE ==> forall j: nat | j < NPAGEREFS :: InUse(words', j) <==> j == i || InUse(words, j)
  {
    for w := 0 to INUSE_WORDS
      invariant forall j: nat | j < 32 * w :: InUse(words, j)
    {
      if words[w] != FullWord() {
        for j := 0 to 32
          invariant forall b: nat | b < 32 * w + j :: InUse(words, b)
        {
          if !words[w][j] {
            i := 32 * w + j;
            words' := words[w := words[w][j := true]];
            return;
          }
        }
        WordIsFull(words, w);
        assert false;
      }
    }
    return words, NONE;
  }

  /** freepageref: the entry must be in use. */
  method FreePageref(words: seq<Word>, i: nat) returns (words': seq<Word>)
    requires |words| == INUSE_WORDS && i < NPAGEREFS && InUse(words, i)
    ensures |words'| == INUSE_WORDS
    ensures forall j: nat | j < NPAGEREFS :: InUse(words', j) <==> j != i && InUse(words, j)
  {
    words' := words[i / 32 := words[i / 32][i % 32 := false]];
  }

  function First(list: seq<nat>): int {
    if list == [] then NONE else list[0]
  }

  function Next(p: Pageref, same: bool): int {
    if same then p.nextSame else p.nextAll
  }

  function SetNext(p: Pageref, same: bool, n: int): Pageref {
    if same then p.(nextSame := n) else p.(nextAll := n)
  }

  /** Following the links from head visits exactly list: no cycle, no entry twice. */
  ghost predicate Linked(head: int, prs: seq<Pageref>, same: bool, list: seq<nat>) {
    && NoDup(list) && head == First(list)
    && forall k | 0 <= k < |list| :: list[k] < |prs| && Next(prs[list[k]], same) == First(list[k + 1..])
  }

  function Remove(list: seq<nat>, k: nat): seq<nat>
    requires k < |list|
  {
    list[..k] + list[k + 1..]
  }

  lemma RemoveElements(list: seq<nat>, k: nat)
    requires k < |list| && NoDup(list)
    ensures NoDup(Remove(list, k)) && forall i :: i in Remove(list, k) <==> i in list && i != list[k]
  {
    var list' := Remove(list, k);
    assert forall j | 0 <= j < |list'| :: list'[j] == if j < k then list[j] else list[j + 1];
    forall i | i in list && i != list[k]
      ensures i in list'
    {
      var j :| 0 <= j < |list| && list[j] == i;
      assert i == if j < k then list'[j] else list'[j - 1];
    }
  }

  /** Unlinking entry k by updating the link that leads to it. */
  lemma Unlinked(head: int, head': int, prs: seq<Pageref>, prs': seq<Pageref>, same: bool, list: seq<nat>, k: nat)
    requires Linked(head, prs, same, list) && k < |list|
    requires k == 0 ==> head' == First(list[1..]) && prs' == prs
    requires k > 0 ==> head' == head
                       && prs' == prs[list[k - 1] := SetNext(prs[list[k - 1]], same, First(list[k + 1..]))]
    ensures Linked(head', prs', same, Remove(list, k))
  {
    RemoveElements(list, k);
    var list' := Remove(list, k);
    forall j | 0 <= j < |list'|
      ensures list'[j] < |prs'| && Next(prs'[list'[j]], same) == First(list'[j + 1..])
    {
      if j + 1 < k {
        assert list[j + 1..][0] == list'[j + 1..][0];
      } else if j + 1 == k {
        assert list'[j + 1..] == list[k + 1..];
      } else {
        assert list'[j + 1..] == list[j + 2..];
      }
    }
  }

  lemma Walk(head: int, prs: seq<Pageref>, same: bool, list: seq<nat>, k: nat)
    requires Linked(head, prs, same, list) && k <= |list|
    ensures head == First(list[0..])
    ensures k == |list| ==> First(list[k..]) == NONE
    ensures k < |list| ==> First(list[k..]) == list[k] < |prs| && Next(prs[list[k]], same) == First(list[k + 1..])
  {
    assert list[0..] == list;
  }

  /** One half of remove_lists: walk from the head to entry i and unlink it. */
  method Unlink(head: int, prs: seq<Pageref>, same: bool, i: nat, ghost list: seq<nat>)
    returns (head': int, prs': seq<Pageref>, ghost k: nat)
    requires Linked(head, prs, same, list) && i in list
    ensures k < |list| && list[k] == i && Linked(head', prs', same, Remove(list, k))
    ensures |prs'| == |prs|
    ensures forall j | 0 <= j < |prs| :: prs'[j] == SetNext(prs[j], same, Next(prs'[j], same))
    ensures forall j: nat | j < |prs| && j !in list :: prs'[j] == prs[j]
  {
    hide NoDup;
    hide Linked;
    hide First;
    hide Remove;
    var prev, guy := NONE, head;
    k := 0;
    Walk(head, prs, same, list, 0);
    while guy != NONE && guy != i
      invariant k <= |list| && guy == First(list[k..]) && i !in list[..k]
      invariant prev == if k == 0 then NONE else list[k - 1] as int
      decreases |list| - k
    {
      Walk(head, prs, same, list, k);
      prev, guy := guy, Next(prs[guy], same);
      k := k + 1;
    }
    assert list == list[..k] + list[k..];
    Walk(head, prs, same, list, k);
    if k > 0 {
      Walk(head, prs, same, list, k - 1);
    }
    Unlinked(head, if k == 0 then First(list[1..]) else head, prs,
             if k == 0 then prs else prs[list[k - 1] := SetNext(prs[list[k - 1]], same, First(list[k + 1..]))],
             same, list, k);
    if prev == NONE {
      head', prs' := Next(prs[i], same), prs;
    } else {
      head', prs' := head, prs[prev := SetNext(prs[prev], same, Next(prs[i], same))];
    }
  }

  lemma Pushed(head: int, prs: seq<Pageref>, prs': seq<Pageref>, same: bool, list: seq<nat>, i: nat)
    requires Linked(head, prs, same, list) && i < |prs| == |prs'| && i !in list && Next(prs'[i], same) == head
    requires forall j | 0 <= j < |prs| && j != i :: Next(prs'[j], same) == Next(prs[j], same)
    ensures Linked(i, prs', same, [i] + list)
  {
    var list' := [i] + list;
    forall k | 0 <= k < |list'|
      ensures list'[k] < |prs'| && Next(prs'[list'[k]], same) == First(list'[k + 1..])
    {
      assert list'[k + 1..] == if k == 0 then list else list[k..];
    }
  }
}
