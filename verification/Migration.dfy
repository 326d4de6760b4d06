/**
 * thread_consider_migration (kern/thread/thread.c:855-958) run without interference from other CPUs: the loops
 * as written, and where every thread ends up.
 */
module Migration {
  import opened Common
  import opened Threads

  function SumLen(qs: seq<seq<Thread>>): nat {
    if qs == [] then 0 else SumLen(qs[..|qs| - 1]) + |qs[|qs| - 1]|
  }

  lemma {:induction false} SumLenSet(qs: seq<seq<Thread>>, i: nat, q: seq<Thread>)
    requires i < |qs|
    ensures SumLen(qs[i := q]) == SumLen(qs) - |qs[i]| + |q|
  {
    var init := qs[..|qs| - 1];
    if i < |init| {
      SumLenSet(init, i, q);
      assert qs[i := q][..|qs| - 1] == init[i := q];
    } else {
      assert qs[i := q][..|qs| - 1] == init;
    }
  }

  /** Queues that all hold a full share hold at least that many shares together. */
  lemma {:induction false} SumLenFull(qs: seq<seq<Thread>>, share: nat)
    requires forall d | 0 <= d < |qs| :: |qs[d]| >= share
    ensures SumLen(qs) >= |qs| * share
  {
    if qs != [] {
      SumLenFull(qs[..|qs| - 1], share);
    }
  }

  lemma {:induction false} SumLenPart(qs: seq<seq<Thread>>, i: nat)
    requires i < |qs|
    ensures SumLen(qs) >= |qs[i]|
  {
    if i < |qs| - 1 {
      SumLenPart(qs[..|qs| - 1], i);
    }
  }

  /** All threads on a run queue. */
  function All(qs: seq<seq<Thread>>): multiset<Thread> {
    if qs == [] then multiset{} else All(qs[..|qs| - 1]) + multiset(qs[|qs| - 1])
  }

  lemma {:induction false} AllSet(qs: seq<seq<Thread>>, i: nat, q: seq<Thread>, t: Thread)
    requires i < |qs|
    ensures All(qs[i := q])[t] + multiset(qs[i])[t] == All(qs)[t] + multiset(q)[t]
  {
    var init := qs[..|qs| - 1];
    if i < |init| {
      AllSet(init, i, q, t);
      assert qs[i := q][..|qs| - 1] == init[i := q];
    } else {
      assert qs[i := q][..|qs| - 1] == init;
    }
  }

  lemma HeadSplit(q: seq<Thread>)
    requires q != []
    ensures multiset(q) == multiset{q[0]} + multiset(q[1..])
  {
    assert q == [q[0]] + q[1..];
  }

  /** Every queued thread has the CPU of its queue as its t_cpu. */
  ghost predicate Homes(qs: seq<seq<Thread>>, tcpu: map<Thread, Cpu>) {
    forall d, k | 0 <= d < |qs| && 0 <= k < |qs[d]| :: qs[d][k] in tcpu && tcpu[qs[d][k]] == d
  }

  // What the placing loops keep, having started from queues qs and victims vs with toSend left to place.

  /** The victims not yet considered come first; curthread, once skipped, waits behind them. */
  ghost predicate Left(vs: seq<Thread>, victims: seq<Thread>, toSend: nat, cur: Thread) {
    && toSend <= |vs| && toSend <= |victims| && victims[..toSend] == vs[|vs| - toSend..]
    && victims[toSend..] == if cur in vs[..|vs| - toSend] then [cur] else []
  }

  /** Queues only grow, and none is pushed above one share; CPU me's own stays as it is. */
  ghost predicate Grown(qs: seq<seq<Thread>>, queues: seq<seq<Thread>>, share: nat, me: Cpu) {
    && me < |qs| == |queues| && queues[me] == qs[me]
    && forall d | 0 <= d < |qs| :: qs[d] <= queues[d] && |queues[d]| <= Max(|qs[d]|, share)
  }

  /** No thread is lost or duplicated. */
  ghost predicate Conserved(qs: seq<seq<Thread>>, vs: seq<Thread>, queues: seq<seq<Thread>>, victims: seq<Thread>) {
    && SumLen(queues) + |victims| == SumLen(qs) + |vs|
    && forall t :: All(queues)[t] + multiset(victims)[t] == All(qs)[t] + multiset(vs)[t]
  }

  ghost predicate VictimsHome(queues: seq<seq<Thread>>, victims: seq<Thread>, tcpu: map<Thread, Cpu>, me: Cpu) {
    && Homes(queues, tcpu) && NoDup(victims) && me < |queues|
    && forall v | v in victims :: v in tcpu && tcpu[v] == me && v !in queues[me]
  }

  ghost predicate InFlight(qs: seq<seq<Thread>>, vs: seq<Thread>, queues: seq<seq<Thread>>, victims: seq<Thread>,
                          tcpu: map<Thread, Cpu>, toSend: nat, share: nat, me: Cpu, cur: Thread) {
    && Left(vs, victims, toSend, cur) && Grown(qs, queues, share, me) && Conserved(qs, vs, queues, victims)
    && VictimsHome(queues, victims, tcpu, me)
  }

  /** CPU me keeps its first share of threads, and cur; other queues only grow, and none above one share. */
  ghost predicate Balanced(qs: seq<seq<Thread>>, queues: seq<seq<Thread>>, me: Cpu, cur: Thread, share: nat) {
    && me < |qs| == |queues| && share <= |qs[me]|
    && queues[me] == qs[me][..share] + (if cur in qs[me][share..] then [cur] else [])
    && forall d | 0 <= d < |qs| && d != me :: qs[d] <= queues[d] && |queues[d]| <= Max(|qs[d]|, share)
  }

  function Next(victims: seq<Thread>, cur: Thread): seq<Thread>
    requires victims != []
  {
    if victims[0] == cur then victims[1..] + [cur] else victims[1..]
  }

  lemma LeftStep(vs: seq<Thread>, victims: seq<Thread>, toSend: nat, cur: Thread)
    requires Left(vs, victims, toSend, cur) && NoDup(vs) && toSend > 0
    ensures Left(vs, Next(victims, cur), toSend - 1, cur)
  {
    var k := |vs| - toSend;
    assert victims[..toSend][0] == vs[k..][0];
    assert vs[..k + 1] == vs[..k] + [vs[k]];
    var victims' := Next(victims, cur);
    assert victims'[..toSend - 1] == victims[..toSend][1..] == vs[k + 1..];
    assert victims[1..][toSend - 1..] == victims[toSend..];
    if victims[0] == cur {
      assert victims'[toSend - 1..] == victims[toSend..] + [cur];
    }
  }

  lemma ConservedMove(qs: seq<seq<Thread>>, vs: seq<Thread>, queues: seq<seq<Thread>>, victims: seq<Thread>, c: Cpu)
    requires Conserved(qs, vs, queues, victims) && victims != [] && c < |queues|
    ensures Conserved(qs, vs, queues[c := queues[c] + [victims[0]]], victims[1..])
  {
    hide All;
    hide SumLen;
    var t, q := victims[0], queues[c] + [victims[0]];
    SumLenSet(queues, c, q);
    HeadSplit(victims);
    forall x
      ensures All(queues[c := q])[x] + multiset(victims[1..])[x] == All(qs)[x] + multiset(vs)[x]
    {
      AllSet(queues, c, q, x);
    }
  }

  lemma ConservedSkip(qs: seq<seq<Thread>>, vs: seq<Thread>, queues: seq<seq<Thread>>, victims: seq<Thread>)
    requires Conserved(qs, vs, queues, victims) && victims != []
    ensures Conserved(qs, vs, queues, victims[1..] + [victims[0]])
  {
    HeadSplit(victims);
  }

  lemma HomesMove(queues: seq<seq<Thread>>, victims: seq<Thread>, tcpu: map<Thread, Cpu>, me: Cpu, c: Cpu)
    requires VictimsHome(queues, victims, tcpu, me) && victims != [] && c < |queues| && c != me
    ensures VictimsHome(queues[c := queues[c] + [victims[0]]], victims[1..], tcpu[victims[0] := c], me)
  {
    var t := victims[0];
    var qs', tcpu' := queues[c := queues[c] + [t]], tcpu[t := c];
    forall d, k | 0 <= d < |qs'| && 0 <= k < |qs'[d]|
      ensures qs'[d][k] in tcpu' && tcpu'[qs'[d][k]] == d
    {
      if !(d == c && k == |queues[c]|) {
        assert qs'[d][k] == queues[d][k];
        assert d == me ==> queues[d][k] in queues[me];
      }
    }
  }

  lemma HomesSkip(queues: seq<seq<Thread>>, victims: seq<Thread>, tcpu: map<Thread, Cpu>, me: Cpu)
    requires VictimsHome(queues, victims, tcpu, me) && victims != []
    ensures VictimsHome(queues, victims[1..] + [victims[0]], tcpu, me)
  {
  }

  /** The run queues and t_cpu fields, as CPU me sees them with curthread cur. */
  class Queues {
    const me: Cpu
    const cur: Thread
    var queues: seq<seq<Thread>>
    var tcpu: map<Thread, Cpu>

    constructor (me: Cpu, cur: Thread, queues: seq<seq<Thread>>, tcpu: map<Thread, Cpu>)
      ensures this.me == me && this.cur == cur && this.queues == queues && this.tcpu == tcpu
    {
      this.me, this.cur, this.queues, this.tcpu := me, cur, queues, tcpu;
    }

    /** The counting loop. */
    method Count() returns (mine: nat, total: nat)
      requires me < |queues|
      ensures mine == |queues[me]| && total == SumLen(queues)
    {
      mine, total := 0, 0;
      for i := 0 to |queues|
        invariant total == SumLen(queues[..i]) && (i > me ==> mine == |queues[me]|)
      {
        total := total + |queues[i]|;
        if i == me {
          mine := |queues[i]|;
        }
        assert queues[..i + 1][..i] == queues[..i];
      }
      assert queues[..|queues|] == queues;
    }

    /** The loop taking victims off the tail of CPU me's own queue: they keep their order. */
    method Take(toSend: nat) returns (victims: seq<Thread>)
      requires me < |queues| && toSend <= |queues[me]|
      modifies `queues
      ensures var q := old(queues)[me];
              queues == old(queues)[me := q[..|q| - toSend]] && victims == q[|q| - toSend..]
    {
      ghost var qs, q := queues, queues[me];
      victims := [];
      assert q[..|q|] == q && qs[me := q] == qs;
      for i := 0 to toSend
        invariant |queues| == |qs| && queues == qs[me := q[..|q| - i]] && victims == q[|q| - i..]
      {
        var mine := queues[me];
        victims := [mine[|mine| - 1]] + victims;
        queues := queues[me := mine[..|mine| - 1]];
        assert mine[..|mine| - 1] == q[..|q| - (i + 1)];
      }
    }

    /** The inner loop for CPU c: fill it up to one share, skipping curthread. */
    method Fill(c: Cpu, victims: seq<Thread>, toSend: nat, share: nat, ghost qs: seq<seq<Thread>>,
                ghost vs: seq<Thread>)
      returns (victims': seq<Thread>, toSend': nat)
      requires InFlight(qs, vs, queues, victims, tcpu, toSend, share, me, cur) && NoDup(vs) && c < |queues| && c != me
      modifies this
      ensures InFlight(qs, vs, queues, victims', tcpu, toSend', share, me, cur)
      ensures toSend' == 0 || |queues[c]| >= share
      ensures forall d | 0 <= d < |queues| && d != c :: queues[d] == old(queues)[d]
    {
      hide Left;
      hide Conserved;
      hide VictimsHome;
      hide NoDup;
      victims', toSend' := victims, toSend;
      while |queues[c]| < share && toSend' > 0
        invariant InFlight(qs, vs, queues, victims', tcpu, toSend', share, me, cur) && |queues| == |qs|
        invariant forall d | 0 <= d < |queues| && d != c :: queues[d] == old(queues)[d]
        decreases toSend'
      {
        LeftNonempty(vs, victims', toSend', cur);
        LeftStep(vs, victims', toSend', cur);
        var t := victims'[0];
        if t == cur {
          ConservedSkip(qs, vs, queues, victims');
          HomesSkip(queues, victims', tcpu, me);
          victims' := victims'[1..] + [t];
        } else {
          ConservedMove(qs, vs, queues, victims', c);
          HomesMove(queues, victims', tcpu, me, c);
          tcpu := tcpu[t := c];
          queues := queues[c := queues[c] + [t]];
          victims' := victims'[1..];
        }
        toSend' := toSend' - 1;
      }
    }

    /** The loop over the other CPUs. No victim is left unplaced, but for curthread. */
    method Spread(victims: seq<Thread>, share: nat, ghost qs: seq<seq<Thread>>)
      returns (left: seq<Thread>)
      requires InFlight(qs, victims, queues, victims, tcpu, |victims|, share, me, cur) && NoDup(victims)
      requires queues == qs && |queues[me]| >= share && SumLen(queues) + |victims| <= |queues| * share
      modifies this
      ensures InFlight(qs, victims, queues, left, tcpu, 0, share, me, cur) && |queues| == |qs|
    {
      hide Left;
      hide Conserved;
      hide VictimsHome;
      hide NoDup;
      var toSend: nat := |victims|;
      left := victims;
      var i: nat := 0;
      while i < |queues| && toSend > 0
        invariant i <= |queues| == |qs| && InFlight(qs, victims, queues, left, tcpu, toSend, share, me, cur)
        invariant toSend > 0 ==> forall d | 0 <= d < i :: |queues[d]| >= share
        decreases |queues| - i
      {
        if i != me {
          left, toSend := Fill(i, left, toSend, share, qs, victims);
        }
        i := i + 1;
      }
      if toSend > 0 {
        NoRoomImpossible(qs, victims, queues, left, share);
        LeftNonempty(victims, left, toSend, cur);
      }
    }

    /** The last loop: whatever is left goes back on CPU me's own queue. */
    method PutBack(victims: seq<Thread>)
      requires me < |queues|
      modifies `queues
      ensures |queues| == |old(queues)| && queues == old(queues)[me := old(queues)[me] + victims]
    {
      var left := victims;
      ghost var n := 0;
      assert queues[me] + victims[..0] == queues[me];
      while left != []
        invariant n <= |victims| && left == victims[n..] && |queues| == |old(queues)|
        invariant queues == old(queues)[me := old(queues)[me] + victims[..n]]
        decreases |left|
      {
        assert victims[..n + 1] == victims[..n] + [left[0]];
        assert old(queues)[me] + victims[..n + 1] == queues[me] + [left[0]];
        queues := queues[me := queues[me] + [left[0]]];
        left := left[1..];
        n := n + 1;
      }
      assert victims[..n] == victims;
    }

    /**
     * thread_consider_migration. A CPU below its share, the total divided by the number of CPUs and rounded up, does
     * nothing. Otherwise it keeps exactly one share of its threads, and curthread besides if that was among those to
     * send; the others go to the tails of queues that are left at one share or less, with t_cpu following; no thread
     * is lost or duplicated.
     */
    method ConsiderMigration()
      requires me < |queues| && NoDup(queues[me]) && Homes(queues, tcpu)
      modifies this
      ensures |queues| == |old(queues)| && All(queues) == All(old(queues)) && Homes(queues, tcpu)
      ensures var qs := old(queues);
              if |qs[me]| * |qs| < SumLen(qs) then queues == qs && tcpu == old(tcpu)
              else exists share: nat :: IsShare(share, SumLen(qs), |qs|) && Balanced(qs, queues, me, cur, share)
      ensures var qs := old(queues);
              |qs[me]| * |qs| >= SumLen(qs) && cur !in qs[me] ==> IsShare(|queues[me]|, SumLen(qs), |qs|)
    {
      hide InFlight;
      hide Homes;
      hide NoDup;
      hide SumLen;
      hide All;
      hide Share;
      hide Balanced;
      ghost var qs := queues;
      var mine, total := Count();
      var share := Share(total, |queues|);
      ShareIs(total, |queues|, mine);
      if mine < share {
        return;
      }
      var toSend := mine - share;
      var victims := Take(toSend);
      ghost var qs1 := queues;
      Taken(qs, me, share, tcpu, cur, qs1, victims);
      var left := Spread(victims, share, qs1);
      ghost var qs2 := queues;
      if left != [] {
        PutBack(left);
      } else {
        assert queues[me] + [] == queues[me] && queues[me := queues[me]] == queues;
      }
      Finish(qs, qs1, victims, qs2, left, me, share, cur, tcpu, queues);
      KeepsShare(qs, queues, me, cur, share);
    }
  }

  lemma KeepsShare(qs: seq<seq<Thread>>, queues: seq<seq<Thread>>, me: Cpu, cur: Thread, share: nat)
    requires Balanced(qs, queues, me, cur, share)
    ensures cur !in qs[me] ==> |queues[me]| == share
  {
  }

  lemma LeftNonempty(vs: seq<Thread>, victims: seq<Thread>, toSend: nat, cur: Thread)
    requires Left(vs, victims, toSend, cur) && toSend > 0
    ensures victims != []
  {
  }

  /** Were every queue full and a victim still left, there would be more threads than all the shares together. */
  lemma NoRoomImpossible(qs: seq<seq<Thread>>, vs: seq<Thread>, queues: seq<seq<Thread>>, victims: seq<Thread>,
                         share: nat)
    requires Conserved(qs, vs, queues, victims) && SumLen(qs) + |vs| <= |queues| * share
    requires forall d | 0 <= d < |queues| :: |queues[d]| >= share
    ensures victims == []
  {
    SumLenFull(queues, share);
  }

  /** After taking the victims, CPU me has one share and nothing else changed. */
  lemma Taken(qs: seq<seq<Thread>>, me: Cpu, share: nat, tcpu: map<Thread, Cpu>, cur: Thread, qs1: seq<seq<Thread>>,
              vs: seq<Thread>)
    requires me < |qs| && share <= |qs[me]| && NoDup(qs[me]) && Homes(qs, tcpu)
    requires qs1 == qs[me := qs[me][..share]] && vs == qs[me][share..]
    ensures InFlight(qs1, vs, qs1, vs, tcpu, |vs|, share, me, cur) && NoDup(vs)
    ensures SumLen(qs1) + |vs| == SumLen(qs) && SameThreads(qs, qs1, vs)
  {
    hide SumLen;
    hide All;
    hide VictimsHome;
    hide Homes;
    TakenHome(qs, me, share, tcpu, qs1, vs);
    var q := qs[me];
    SumLenSet(qs, me, q[..share]);
    assert q == q[..share] + vs;
    forall t
      ensures All(qs1)[t] + multiset(vs)[t] == All(qs)[t]
    {
      AllSet(qs, me, q[..share], t);
      assert multiset(q) == multiset(q[..share]) + multiset(vs);
    }
    assert vs[|vs| - |vs|..] == vs && vs[..|vs|] == vs;
  }

  /** Queues qs1 and the threads vs together hold what qs held. */
  ghost predicate SameThreads(qs: seq<seq<Thread>>, qs1: seq<seq<Thread>>, vs: seq<Thread>) {
    forall t :: All(qs1)[t] + multiset(vs)[t] == All(qs)[t]
  }

  lemma TakenHome(qs: seq<seq<Thread>>, me: Cpu, share: nat, tcpu: map<Thread, Cpu>, qs1: seq<seq<Thread>>,
                  vs: seq<Thread>)
    requires me < |qs| && share <= |qs[me]| && NoDup(qs[me]) && Homes(qs, tcpu)
    requires qs1 == qs[me := qs[me][..share]] && vs == qs[me][share..]
    ensures VictimsHome(qs1, vs, tcpu, me)
  {
    forall v | v in vs
      ensures v in tcpu && tcpu[v] == me && v !in qs1[me]
    {
      var k :| 0 <= k < |vs| && vs[k] == v;
      assert qs[me][share + k] == v;
    }
    forall d, k | 0 <= d < |qs1| && 0 <= k < |qs1[d]|
      ensures qs1[d][k] in tcpu && tcpu[qs1[d][k]] == d
    {
      assert qs1[d][k] == qs[d][k];
    }
  }

  lemma PutHome(qs2: seq<seq<Thread>>, left: seq<Thread>, tcpu: map<Thread, Cpu>, me: Cpu)
    requires VictimsHome(qs2, left, tcpu, me)
    ensures Homes(qs2[me := qs2[me] + left], tcpu)
  {
    var qs3 := qs2[me := qs2[me] + left];
    forall d, k | 0 <= d < |qs3| && 0 <= k < |qs3[d]|
      ensures qs3[d][k] in tcpu && tcpu[qs3[d][k]] == d
    {
      if d == me && k >= |qs2[me]| {
        assert qs3[d][k] == left[k - |qs2[me]|];
      } else {
        assert qs3[d][k] == qs2[d][k];
      }
    }
  }

  lemma PutThreads(qs: seq<seq<Thread>>, qs1: seq<seq<Thread>>, vs: seq<Thread>, qs2: seq<seq<Thread>>,
                   left: seq<Thread>, me: Cpu)
    requires SameThreads(qs, qs1, vs) && Conserved(qs1, vs, qs2, left) && me < |qs2|
    ensures All(qs2[me := qs2[me] + left]) == All(qs)
  {
    hide All;
    hide SumLen;
    var q3 := qs2[me] + left;
    forall t
      ensures All(qs2[me := q3])[t] == All(qs)[t]
    {
      AllSet(qs2, me, q3, t);
    }
  }

  lemma Finish(qs: seq<seq<Thread>>, qs1: seq<seq<Thread>>, vs: seq<Thread>, qs2: seq<seq<Thread>>, left: seq<Thread>,
               me: Cpu, share: nat, cur: Thread, tcpu: map<Thread, Cpu>, qs3: seq<seq<Thread>>)
    requires me < |qs| && share <= |qs[me]| && qs1 == qs[me := qs[me][..share]] && vs == qs[me][share..]
    requires InFlight(qs1, vs, qs2, left, tcpu, 0, share, me, cur) && SameThreads(qs, qs1, vs)
    requires qs3 == qs2[me := qs2[me] + left]
    ensures |qs3| == |qs| && Balanced(qs, qs3, me, cur, share)
    ensures All(qs3) == All(qs) && Homes(qs3, tcpu)
  {
    hide All;
    hide Conserved;
    hide VictimsHome;
    hide Homes;
    hide SameThreads;
    PutHome(qs2, left, tcpu, me);
    PutThreads(qs, qs1, vs, qs2, left, me);
    assert vs[..|vs|] == vs && left[0..] == left;
  }
}
