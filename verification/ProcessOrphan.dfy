/**
 * Runs of fork, _exit and waitpid in which a failed fork frees a pid (kern/syscall/proc_syscalls.c:205-235) that
 * another process has taken for its parent's: one ends with a zombie whose parent slot is empty, the other with a
 * process about to signal a parent that is gone.
 */
module ProcessOrphan {
  import opened Common
  import opened ProcTable
  import opened Processes

  ghost predicate CanDo(s: State, acts: seq<Action>)
    decreases |acts|
  {
    acts == [] || (Enabled(s, acts[0]) && CanDo(Apply(s, acts[0]), acts[1..]))
  }

  /** The states that the actions lead through. */
  ghost function Trace(s: State, acts: seq<Action>): (states: seq<State>)
    requires CanDo(s, acts)
    ensures |states| == |acts| + 1 && states[0] == s
    decreases |acts|
  {
    if acts == [] then [s] else [s] + Trace(Apply(s, acts[0]), acts[1..])
  }

  ghost function Final(s: State, acts: seq<Action>): State
    requires CanDo(s, acts)
  {
    Trace(s, acts)[|acts|]
  }

  lemma {:induction false} TraceSteps(s: State, acts: seq<Action>, k: nat)
    requires CanDo(s, acts) && k < |acts|
    ensures Enabled(Trace(s, acts)[k], acts[k]) && Trace(s, acts)[k + 1] == Apply(Trace(s, acts)[k], acts[k])
    decreases |acts|
  {
    hide Enabled;
    hide Apply;
    if k > 0 {
      TraceSteps(Apply(s, acts[0]), acts[1..], k - 1);
    }
  }

  lemma TraceIsRun(s: State, acts: seq<Action>)
    requires Init(s) && CanDo(s, acts)
    ensures IsRun(Trace(s, acts), acts)
  {
    hide Enabled;
    hide Apply;
    forall k | 0 <= k < |acts|
      ensures Enabled(Trace(s, acts)[k], acts[k]) && Trace(s, acts)[k + 1] == Apply(Trace(s, acts)[k], acts[k])
    {
      TraceSteps(s, acts, k);
    }
  }

  lemma {:induction false} DoMore(s: State, a: seq<Action>, b: seq<Action>)
    requires CanDo(s, a) && CanDo(Final(s, a), b)
    ensures CanDo(s, a + b) && Final(s, a + b) == Final(Final(s, a), b)
    decreases |a|
  {
    hide Enabled;
    hide Apply;
    if a == [] {
      assert a + b == b;
    } else {
      assert (a + b)[0] == a[0] && (a + b)[1..] == a[1..] + b;
      DoMore(Apply(s, a[0]), a[1..], b);
    }
  }

  lemma DoOne(s: State, a: Action, s': State)
    requires Enabled(s, a) && Apply(s, a) == s'
    ensures CanDo(s, [a]) && Final(s, [a]) == s'
  {
    assert CanDo(s', []);
  }

  lemma DoNext(s: State, acts: seq<Action>, s1: State, a: Action, s2: State)
    requires CanDo(s, acts) && Final(s, acts) == s1 && Enabled(s1, a) && Apply(s1, a) == s2
    ensures CanDo(s, acts + [a]) && Final(s, acts + [a]) == s2
  {
    hide Enabled;
    hide Apply;
    DoOne(s1, a, s2);
    DoMore(s, acts, [a]);
  }

  /** A whole sys_fork. */
  function Forks(p: nat, c: nat): seq<Action> {
    [ForkCreate(p, c)] + [ForkLink(p)] + [ForkStart(p)] + [ForkReturn(p)]
  }

  /** The state while p forks child c, in each of the places sys_fork goes through. */
  function Midway(s: State, p: nat, c: nat, parent: int, pc: Pc, child: Pc): State {
    s.(table := s.table[c := Proc(s.next, parent, false, 0)], pc := s.pc[p := pc][c := child], next := s.next + 1)
  }

  lemma ForkSteps(s: State, p: nat, c: nat)
    requires s.lock == None && p in s.pc && s.pc[p] == Running && c != p
    requires IsLeastFree(s.table, c) && |s.table| < PROC_LIMIT
    ensures var s1 := Midway(s, p, c, -1, ForkMade(c, s.next), Embryo(p));
            var s2 := Midway(s, p, c, p, ForkLinked(c, s.next), Embryo(p));
            var s3 := Midway(s, p, c, p, ForkStarted(c, s.next), Running);
            && Enabled(s, ForkCreate(p, c)) && Apply(s, ForkCreate(p, c)) == s1
            && Enabled(s1, ForkLink(p)) && Apply(s1, ForkLink(p)) == s2
            && Enabled(s2, ForkStart(p)) && Apply(s2, ForkStart(p)) == s3
            && Enabled(s3, ForkReturn(p)) && Apply(s3, ForkReturn(p)) == Midway(s, p, c, p, Running, Running)
  {
    hide IsLeastFree;
    var s1 := Midway(s, p, c, -1, ForkMade(c, s.next), Embryo(p));
    var s2 := Midway(s, p, c, p, ForkLinked(c, s.next), Embryo(p));
    assert Apply(s1, ForkLink(p)).table == s2.table && Apply(s1, ForkLink(p)).pc == s2.pc;
    var s3 := Midway(s, p, c, p, ForkStarted(c, s.next), Running);
    assert Apply(s2, ForkStart(p)).pc == s3.pc;
    assert Apply(s3, ForkReturn(p)).pc == Midway(s, p, c, p, Running, Running).pc;
  }

  lemma DoFork(s: State, p: nat, c: nat)
    requires s.lock == None && p in s.pc && s.pc[p] == Running && c != p
    requires IsLeastFree(s.table, c) && |s.table| < PROC_LIMIT
    ensures CanDo(s, Forks(p, c)) && Final(s, Forks(p, c)) == Midway(s, p, c, p, Running, Running)
  {
    hide IsLeastFree;
    hide CanDo;
    hide Enabled;
    hide Apply;
    hide Midway;
    hide Final;
    ForkSteps(s, p, c);
    var s1 := Midway(s, p, c, -1, ForkMade(c, s.next), Embryo(p));
    var s2 := Midway(s, p, c, p, ForkLinked(c, s.next), Embryo(p));
    var s3 := Midway(s, p, c, p, ForkStarted(c, s.next), Running);
    DoOne(s, ForkCreate(p, c), s1);
    DoNext(s, [ForkCreate(p, c)], s1, ForkLink(p), s2);
    DoNext(s, [ForkCreate(p, c)] + [ForkLink(p)], s2, ForkStart(p), s3);
    DoNext(s, [ForkCreate(p, c)] + [ForkLink(p)] + [ForkStart(p)], s3, ForkReturn(p),
           Midway(s, p, c, p, Running, Running));
  }

  // Processes 2, 3 and 4, each the child of the one before, and what becomes of them.

  const Boot: State := State(map[], map[], 0, [], None)
  const Alone: State := State(map[2 := Proc(0, -1, false, 0)], map[2 := Running], 1, [], None)
  const Couple: State :=
    State(map[2 := Proc(0, -1, false, 0), 3 := Proc(1, 2, false, 0)], map[2 := Running, 3 := Running], 2, [], None)
  const Family: State :=
    State(map[2 := Proc(0, -1, false, 0), 3 := Proc(1, 2, false, 0), 4 := Proc(2, 3, false, 0)],
          map[2 := Running, 3 := Running, 4 := Running], 3, [], None)
  const Bereft: State :=
    State(map[2 := Proc(0, -1, false, 0), 3 := Proc(1, 2, true, 0), 4 := Proc(2, 3, false, 0)],
          map[2 := Running, 3 := Zombie, 4 := Running], 3, [], None)
  const Waiting: State := Bereft.(pc := map[2 := WaitAwake(3, 1), 3 := Zombie, 4 := Running])
  const Reaped: State :=
    State(map[2 := Proc(0, -1, false, 0), 4 := Proc(2, 3, false, 0)], map[2 := Running, 4 := Running], 3,
          [Reaping(1, 0)], None)
  const Again: State :=
    State(map[2 := Proc(0, -1, false, 0), 3 := Proc(3, 2, false, 0), 4 := Proc(2, 3, false, 0)],
          map[2 := ForkLinked(3, 3), 3 := Embryo(2), 4 := Running], 4, [Reaping(1, 0)], None)
  const Adopted: State :=
    State(map[2 := Proc(0, -1, false, 0), 3 := Proc(3, 2, false, 0), 4 := Proc(2, 3, true, 0)],
          map[2 := ForkLinked(3, 3), 3 := Embryo(2), 4 := Zombie], 4, [Reaping(1, 0)], None)
  const Orphaned: State :=
    State(map[2 := Proc(0, -1, false, 0), 4 := Proc(2, 3, true, 0)], map[2 := Running, 4 := Zombie], 4,
          [Reaping(1, 0)], None)

  lemma ForkStates()
    ensures Enabled(Boot, Spawn(2)) && Apply(Boot, Spawn(2)) == Alone
    ensures IsLeastFree(Alone.table, 3) && Midway(Alone, 2, 3, 2, Running, Running) == Couple
    ensures IsLeastFree(Couple.table, 4) && Midway(Couple, 3, 4, 3, Running, Running) == Family
    ensures |Alone.table| == 1 && |Couple.table| == 2
  {
    assert Midway(Couple, 3, 4, 3, Running, Running).pc == Family.pc;
    assert Midway(Alone, 2, 3, 2, Running, Running).pc == Couple.pc;
  }

  lemma CleanNone(s: State, p: nat)
    requires s.pc.Keys == s.table.Keys && forall i | i in s.table :: !IsDeadChild(s.table[i], p)
    ensures Clean(s, p) == s
  {
    CleanIsRemoval(s, p);
    assert DeadChildren(s.table, p) == {};
    assert s.table - {} == s.table && s.pc - {} == s.pc;
  }

  /** Process p, with parent q, has found its parent. */
  function Leaving(s: State, p: nat, q: nat): State
    requires q in s.table
  {
    s.(pc := s.pc[p := Exiting(q, s.table[q].serial, 0)], lock := Some(p))
  }

  lemma ExitState(s: State, p: nat, q: nat, s': State)
    requires p in s.pc && p in s.table && s.pc[p] == Running && s.pc.Keys == s.table.Keys && s.lock == None
    requires q == s.table[p].parent && HasParent(s.table, p)
    requires s' == s.(table := s.table[p := s.table[p].(exited := true, code := 0)], pc := s.pc[p := Zombie])
    requires q != p && q in s.pc && !s.pc[q].WaitAsleep?
    requires forall i | i in s'.table :: !IsDeadChild(s'.table[i], p)
    ensures Enabled(s, Exit(p, 0)) && Apply(s, Exit(p, 0)) == Leaving(s, p, q)
    ensures Enabled(Leaving(s, p, q), Finish(p)) && Apply(Leaving(s, p, q), Finish(p)) == s'
  {
    var s1 := Leaving(s, p, q);
    assert s1.pc[p := Zombie] == s.pc[p := Zombie];
    assert Exited(s1, p, 0).(lock := None) == s';
    CleanNone(s', p);
  }

  lemma FirstExit()
    ensures Enabled(Family, Exit(3, 0)) && Apply(Family, Exit(3, 0)) == Leaving(Family, 3, 2)
    ensures Enabled(Leaving(Family, 3, 2), Finish(3)) && Apply(Leaving(Family, 3, 2), Finish(3)) == Bereft
  {
    assert Bereft.table == Family.table[3 := Proc(1, 2, true, 0)] && Bereft.pc == Family.pc[3 := Zombie];
    ExitState(Family, 3, 2, Bereft);
  }

  lemma WaitState()
    ensures Enabled(Bereft, Wait(2, 3)) && Apply(Bereft, Wait(2, 3)) == Waiting
  {
    hide IsLeastFree;
    assert Bereft.pc[2 := WaitAwake(3, 1)] == Waiting.pc;
  }

  lemma ReapState()
    ensures Enabled(Waiting, Reap(2)) && Apply(Waiting, Reap(2)) == Reaped
  {
    hide IsLeastFree;
    assert Waiting.table - {3} == Reaped.table && Waiting.pc[2 := Running] - {3} == Reaped.pc;
  }

  lemma SecondFork()
    ensures IsLeastFree(Reaped.table, 3) && |Reaped.table| == 2
    ensures Midway(Reaped, 2, 3, 2, ForkLinked(3, 3), Embryo(2)) == Again
  {
    assert Reaped.table[3 := Proc(3, 2, false, 0)] == Again.table;
    assert Reaped.pc[2 := ForkLinked(3, 3)][3 := Embryo(2)] == Again.pc;
  }

  lemma SecondExit()
    ensures Enabled(Again, Exit(4, 0)) && Apply(Again, Exit(4, 0)) == Leaving(Again, 4, 3)
    ensures Enabled(Leaving(Again, 4, 3), Finish(4)) && Apply(Leaving(Again, 4, 3), Finish(4)) == Adopted
  {
    assert Adopted.table == Again.table[4 := Proc(2, 3, true, 0)] && Adopted.pc == Again.pc[4 := Zombie];
    ExitState(Again, 4, 3, Adopted);
  }

  lemma LastState()
    ensures Enabled(Adopted, ForkFail(2)) && Apply(Adopted, ForkFail(2)) == Orphaned && !HasParent(Orphaned.table, 4)
  {
    assert Adopted.table - {3} == Orphaned.table && Adopted.pc[2 := Running] - {3} == Orphaned.pc;
  }

  /** The family comes to be; 3 exits and is reaped by 2. */
  function FamilyScript(): seq<Action> {
    [Spawn(2)] + Forks(2, 3) + Forks(3, 4) + [Exit(3, 0)] + [Finish(3)] + [Wait(2, 3)] + [Reap(2)]
  }

  lemma DoFamily()
    ensures CanDo(Boot, FamilyScript()) && Final(Boot, FamilyScript()) == Reaped
  {
    hide CanDo;
    hide Forks;
    hide Final;
    hide Enabled;
    hide Apply;
    hide Midway;
    hide IsLeastFree;
    ForkStates();
    FirstExit();
    WaitState();
    ReapState();
    DoOne(Boot, Spawn(2), Alone);
    DoFork(Alone, 2, 3);
    DoMore(Boot, [Spawn(2)], Forks(2, 3));
    DoFork(Couple, 3, 4);
    var a2 := [Spawn(2)] + Forks(2, 3);
    DoMore(Boot, a2, Forks(3, 4));
    var a3 := a2 + Forks(3, 4);
    DoNext(Boot, a3, Family, Exit(3, 0), Leaving(Family, 3, 2));
    DoNext(Boot, a3 + [Exit(3, 0)], Leaving(Family, 3, 2), Finish(3), Bereft);
    DoNext(Boot, a3 + [Exit(3, 0)] + [Finish(3)], Bereft, Wait(2, 3), Waiting);
    DoNext(Boot, a3 + [Exit(3, 0)] + [Finish(3)] + [Wait(2, 3)], Waiting, Reap(2), Reaped);
  }

  /** Then 2 forks again, gets pid 3 for its child, and 4 starts to exit and takes that child for its parent. */
  function AdoptScript(): seq<Action> {
    FamilyScript() + [ForkCreate(2, 3)] + [ForkLink(2)] + [Exit(4, 0)]
  }

  lemma DoAdopt()
    ensures CanDo(Boot, AdoptScript()) && Final(Boot, AdoptScript()) == Leaving(Again, 4, 3)
  {
    hide CanDo;
    hide FamilyScript;
    hide Final;
    hide Enabled;
    hide Apply;
    hide Midway;
    hide IsLeastFree;
    hide HasParent;
    hide Leaving;
    DoFamily();
    SecondFork();
    SecondExit();
    ForkSteps(Reaped, 2, 3);
    var a1 := FamilyScript();
    var made := Midway(Reaped, 2, 3, -1, ForkMade(3, 3), Embryo(2));
    DoNext(Boot, a1, Reaped, ForkCreate(2, 3), made);
    DoNext(Boot, a1 + [ForkCreate(2, 3)], made, ForkLink(2), Again);
    DoNext(Boot, a1 + [ForkCreate(2, 3)] + [ForkLink(2)], Again, Exit(4, 0), Leaving(Again, 4, 3));
  }

  /** If 4 gets to the end before the fork fails, it is a zombie whose parent slot is then emptied. */
  lemma OrphanedZombie()
    ensures var script := AdoptScript() + [Finish(4)] + [ForkFail(2)];
            && CanDo(Boot, script) && IsRun(Trace(Boot, script), script)
            && Final(Boot, script) == Orphaned && !ZombiesOk(Orphaned)
  {
    hide CanDo;
    hide AdoptScript;
    hide Final;
    hide Enabled;
    hide Apply;
    hide HasParent;
    hide Leaving;
    DoAdopt();
    SecondExit();
    LastState();
    DoNext(Boot, AdoptScript(), Leaving(Again, 4, 3), Finish(4), Adopted);
    DoNext(Boot, AdoptScript() + [Finish(4)], Adopted, ForkFail(2), Orphaned);
    TraceIsRun(Boot, AdoptScript() + [Finish(4)] + [ForkFail(2)]);
    assert 4 in Orphaned.table && Orphaned.table[4].exited;
  }

  const Lost: State :=
    State(map[2 := Proc(0, -1, false, 0), 4 := Proc(2, 3, false, 0)], map[2 := Running, 4 := Exiting(3, 3, 0)], 4,
          [Reaping(1, 0)],
          Some(4))

  lemma LostState()
    ensures Enabled(Leaving(Again, 4, 3), ForkFail(2)) && Apply(Leaving(Again, 4, 3), ForkFail(2)) == Lost
    ensures Enabled(Lost, Finish(4)) && !ParentHeld(Lost, 4)
  {
    var s := Leaving(Again, 4, 3);
    assert s.table - {3} == Lost.table && s.pc[2 := Running] - {3} == Lost.pc;
  }

  /** If the fork fails first, 4 holds the lock and is to signal a parent that has been destroyed. */
  lemma LostParent()
    ensures var script := AdoptScript() + [ForkFail(2)];
            && CanDo(Boot, script) && IsRun(Trace(Boot, script), script) && Final(Boot, script) == Lost
    ensures Enabled(Lost, Finish(4)) && !ParentHeld(Lost, 4)
  {
    hide CanDo;
    hide AdoptScript;
    hide Final;
    hide Enabled;
    hide Apply;
    hide Leaving;
    DoAdopt();
    LostState();
    DoNext(Boot, AdoptScript(), Leaving(Again, 4, 3), ForkFail(2), Lost);
    TraceIsRun(Boot, AdoptScript() + [ForkFail(2)]);
  }
}
