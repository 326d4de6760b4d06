/** The doubly linked thread list with bookend nodes (kern/thread/threadlist.c). */
module ThreadList {

  /** struct threadlistnode; thread is the owner, absent in a bookend. */
  class Node {
    var prev: Node?
    var next: Node?
    const thread: nat

    constructor (thread: nat)
      ensures prev == null && next == null && this.thread == thread
    {
      prev, next, this.thread := null, null, thread;
    }
  }

  /** Neighbours i and i + 1 of a chain point at each other. */
  ghost predicate LinkAt(c: seq<Node>, i: nat)
    requires i + 1 < |c|
    reads c[i], c[i + 1]
  {
    c[i].next == c[i + 1] && c[i + 1].prev == c[i]
  }

  ghost predicate Distinct(c: seq<Node>) {
    forall i, j | 0 <= i < j < |c| :: c[i] != c[j]
  }

  lemma SpliceDistinct(c: seq<Node>, c': seq<Node>, k: nat, n: Node)
    requires Distinct(c) && k <= |c| && n !in c && c' == c[..k] + [n] + c[k..]
    ensures Distinct(c')
  {
  }

  lemma DropDistinct(c: seq<Node>, c': seq<Node>, k: nat)
    requires Distinct(c) && k < |c| && c' == c[..k] + c[k + 1..]
    ensures Distinct(c') && c[k] !in c'
  {
  }

  class List {
    const head: Node
    const tail: Node
    var count: nat
    ghost var nodes: seq<Node>  // the nodes on the list, in order, without the bookends

    /** The bookends and the nodes between them. */
    ghost function Chain(): seq<Node>
      reads this
    {
      [head] + nodes + [tail]
    }

    /** Following next from head, or prev from tail, visits exactly the chain; no node is on it twice. */
    ghost predicate Valid()
      reads this, head, tail, nodes
    {
      && count == |nodes|
      && Distinct(Chain())
      && (forall i: nat | i + 1 < |Chain()| :: LinkAt(Chain(), i))
      && head.prev == null && tail.next == null
    }

    constructor ()
      ensures Valid() && nodes == [] && fresh(head) && fresh(tail)
    {
      var h := new Node(0);
      var t := new Node(0);
      head, tail, count, nodes := h, t, 0, [];
      new;
      h.next, t.prev := t, h;
    }

    /** threadlist_insertafternode and threadlist_insertbeforenode: put addee between two neighbours. */
    method Splice(addee: Node, before: Node, after: Node, ghost k: nat)
      requires Valid() && k <= |nodes| && before == Chain()[k] && after == Chain()[k + 1]
      requires addee.prev == null && addee.next == null && addee !in Chain()
      modifies this, before`next, after`prev, addee`prev, addee`next
      ensures Valid() && nodes == old(nodes[..k] + [addee] + nodes[k..])
    {
      ghost var c, c' := Chain(), Chain()[..k + 1] + [addee] + Chain()[k + 1..];
      hide Distinct;
      SpliceDistinct(c, c', k + 1, addee);
      Ends(k);
      assert forall i: nat | i + 1 < |c| :: LinkAt(c, i);
      addee.prev := before;
      addee.next := after;
      before.next := addee;
      after.prev := addee;
      count := count + 1;
      nodes := nodes[..k] + [addee] + nodes[k..];
      assert Chain() == c';
      forall i: nat | i + 1 < |c'|
        ensures LinkAt(c', i)
      {
        if i < k {
          assert old(LinkAt(c, i)) && c'[i] == c[i] && c'[i + 1] == c[i + 1];
          Differ(c, i, k);
          Differ(c, i + 1, k + 1);
        } else if i > k + 1 {
          assert old(LinkAt(c, i - 1)) && c'[i] == c[i - 1] && c'[i + 1] == c[i];
          Differ(c, i - 1, k);
          Differ(c, i, k + 1);
        }
      }
    }

    lemma Ends(k: nat)
      requires Valid() && k <= |nodes|
      ensures Chain()[0] == head && Chain()[|nodes| + 1] == tail
      ensures Chain()[k] != tail && Chain()[k + 1] != head
    {
    }

    lemma Differ(c: seq<Node>, i: nat, j: nat)
      requires Distinct(c) && i < |c| && j < |c| && i != j
      ensures c[i] != c[j]
    {
    }

    /** threadlist_removenode: unlink a node on the list. */
    method Unlink(tln: Node, ghost before: Node, ghost after: Node, ghost k: nat)
      requires Valid() && k < |nodes| && nodes[k] == tln && before == Chain()[k] && after == Chain()[k + 2]
      modifies this, before`next, after`prev, tln`prev, tln`next
      ensures Valid() && nodes == old(nodes[..k] + nodes[k + 1..])
      ensures tln.prev == null && tln.next == null
    {
      ghost var c, c' := Chain(), Chain()[..k + 1] + Chain()[k + 2..];
      hide Distinct;
      DropDistinct(c, c', k + 1);
      Ends(k);
      Ends(k + 1);
      assert c[k + 1] == tln && LinkAt(c, k) && LinkAt(c, k + 1);
      assert forall i: nat | i + 1 < |c| :: LinkAt(c, i);
      tln.prev.next := tln.next;
      tln.next.prev := tln.prev;
      tln.prev := null;
      tln.next := null;
      count := count - 1;
      nodes := nodes[..k] + nodes[k + 1..];
      assert Chain() == c';
      forall i: nat | i + 1 < |c'|
        ensures LinkAt(c', i)
      {
        Differ(c, k, k + 1);
        Differ(c, k + 1, k + 2);
        if i < k {
          assert old(LinkAt(c, i)) && c'[i] == c[i] && c'[i + 1] == c[i + 1];
          Differ(c, i, k);
          Differ(c, i, k + 1);
          Differ(c, i + 1, k + 1);
          Differ(c, i + 1, k + 2);
        } else if i > k {
          assert old(LinkAt(c, i + 1)) && c'[i] == c[i + 1] && c'[i + 1] == c[i + 2];
          Differ(c, i + 1, k);
          Differ(c, i + 1, k + 1);
          Differ(c, i + 2, k + 1);
          Differ(c, i + 2, k + 2);
        }
      }
    }

    /** A node that is on no list is not on this one. */
    lemma Unlisted(n: Node)
      requires Valid() && n.prev == null && n.next == null
      ensures n !in Chain()
    {
      forall i | 0 <= i < |Chain()|
        ensures Chain()[i] != n
      {
        if i == 0 {
          assert LinkAt(Chain(), 0);
        } else {
          assert LinkAt(Chain(), i - 1);
        }
      }
    }

    method AddHead(t: Node)
      requires Valid() && t.prev == null && t.next == null
      modifies this, head, tail, nodes, t
      ensures Valid() && nodes == [t] + old(nodes)
    {
      Unlisted(t);
      assert LinkAt(Chain(), 0);
      Splice(t, head, head.next, 0);
    }

    method AddTail(t: Node)
      requires Valid() && t.prev == null && t.next == null
      modifies this, head, tail, nodes, t
      ensures Valid() && nodes == old(nodes) + [t]
    {
      Unlisted(t);
      ghost var n := |nodes|;
      assert Chain()[n + 1] == tail && LinkAt(Chain(), n);
      Splice(t, tail.prev, tail, n);
    }

    /** threadlist_remhead: null exactly when the list is empty; a removed node can go on a list again. */
    method RemHead() returns (t: Node?)
      requires Valid()
      modifies this, head, tail, nodes
      ensures Valid() && (t == null <==> old(nodes) == [])
      ensures t == null ==> nodes == old(nodes)
      ensures t != null ==> [t] + nodes == old(nodes) && t.prev == null && t.next == null
    {
      var tln := head.next;
      assert LinkAt(Chain(), 0);
      if nodes != [] {
        assert LinkAt(Chain(), 1);
      }
      if tln.next == null {
        return null;
      }
      Unlink(tln, head, Chain()[2], 0);
      return tln;
    }

    method RemTail() returns (t: Node?)
      requires Valid()
      modifies this, head, tail, nodes
      ensures Valid() && (t == null <==> old(nodes) == [])
      ensures t == null ==> nodes == old(nodes)
      ensures t != null ==> nodes + [t] == old(nodes) && t.prev == null && t.next == null
    {
      ghost var n := |nodes|;
      var tln := tail.prev;
      assert LinkAt(Chain(), n);
      if nodes != [] {
        assert LinkAt(Chain(), n - 1);
      }
      if tln.prev == null {
        return null;
      }
      Unlink(tln, Chain()[n - 1], tail, n - 1);
      return tln;
    }

    /** threadlist_remove of a thread on the list. */
    method Remove(t: Node, ghost k: nat)
      requires Valid() && k < |nodes| && nodes[k] == t
      modifies this, head, tail, nodes
      ensures Valid() && nodes == old(nodes[..k] + nodes[k + 1..]) && t.prev == null && t.next == null
    {
      Unlink(t, Chain()[k], Chain()[k + 2], k);
    }

    /** threadlist_insertafter and threadlist_insertbefore. */
    method InsertAfter(onlist: Node, addee: Node, ghost k: nat)
      requires Valid() && k < |nodes| && nodes[k] == onlist && addee.prev == null && addee.next == null
      modifies this, head, tail, nodes, addee
      ensures Valid() && nodes == old(nodes[..k + 1] + [addee] + nodes[k + 1..])
    {
      Unlisted(addee);
      assert LinkAt(Chain(), k + 1);
      Splice(addee, onlist, onlist.next, k + 1);
    }

    method InsertBefore(addee: Node, onlist: Node, ghost k: nat)
      requires Valid() && k < |nodes| && nodes[k] == onlist && addee.prev == null && addee.next == null
      modifies this, head, tail, nodes, addee
      ensures Valid() && nodes == old(nodes[..k] + [addee] + nodes[k..])
    {
      Unlisted(addee);
      assert LinkAt(Chain(), k);
      Splice(addee, onlist.prev, onlist, k);
    }
  }
}
