/**
 * fork, _exit and waitpid (kern/syscall/proc_syscalls.c:26-247) as steps over the process table; parenthood is by
 * pid slot. Entering a process in the table, and all of _exit and waitpid, are under the global lock; the rest of
 * sys_fork is not: it sets the child's parent, destroys the child when it fails, and reads its pid without the lock,
 * also while another process is in the middle of _exit.
 */
module Processes {
  import opened Common
  import opened ProcTable

  /** What the thread of a process is doing. The serial number is that of the process pointer it holds. */
  datatype Pc =
    | Embryo(creator: nat)              // being made by sys_fork, no thread yet
    | Running
    | ForkMade(child: nat, serial: nat)     // sys_fork, child in the table without a parent
    | ForkLinked(child: nat, serial: nat)   // sys_fork, child's parent set
    | ForkStarted(child: nat, serial: nat)  // sys_fork, child started, its pid still to be read
    | WaitAwake(child: nat, serial: nat)    // sys_waitpid, about to test the child's exit flag
    | WaitAsleep(child: nat, serial: nat)   // sys_waitpid, in cv_wait
    | Exiting(parent: nat, serial: nat, code: int)  // sys__exit, with a pointer to its parent and the global lock
    | Zombie                            // exited, its thread gone

  /** What waitpid handed to its caller: whose exit it was, by serial number, and the status copied out. */
  datatype Reaping = Reaping(serial: nat, status: int)

  /** lock is the process that keeps the global lock from one step to the next. */
  datatype State = State(table: Table, pc: map<nat, Pc>, next: nat, reaped: seq<Reaping>, lock: Option<nat>)

  /** The value of a number in a C int. */
  function Int32(x: int): int {
    (x + 0x8000_0000) % 0x1_0000_0000 - 0x8000_0000
  }

  /** _MKWAIT_EXIT, and the WIFEXITED and WEXITSTATUS by which programs take it apart (kern/include/kern/wait.h). */
  function MkWaitExit(code: int): int {
    Int32(4 * code)
  }

  predicate WIfExited(status: int) {
    status % 4 == 0
  }

  function WExitStatus(status: int): int {
    status / 4
  }

  /** A status says that the process exited, and gives back its exit code if and only if that fits in 30 bits. */
  lemma StatusRoundTrip(code: int)
    requires -0x8000_0000 <= code < 0x8000_0000
    ensures WIfExited(MkWaitExit(code))
    ensures WExitStatus(MkWaitExit(code)) == code <==> -0x2000_0000 <= code < 0x2000_0000
  {
    var y := MkWaitExit(code);
    assert exists q: int :: y == 4 * code - 0x1_0000_0000 * q by {
      assert y == 4 * code - 0x1_0000_0000 * ((4 * code + 0x8000_0000) / 0x1_0000_0000);
    }
  }

  datatype Action =
    | Spawn(p: nat)                     // proc_create_runprogram from the kernel menu
    | ForkCreate(p: nat, c: nat) | ForkLink(p: nat) | ForkFail(p: nat) | ForkStart(p: nat) | ForkReturn(p: nat)
    | Exit(p: nat, code: int)           // sys__exit up to finding the parent; all of it without one
    | Finish(p: nat)                    // the rest: become a zombie, signal the parent, clean up, release the lock
    | Wait(p: nat, c: nat) | Sleep(p: nat) | Reap(p: nat) | Fault(p: nat)

  /** parent_checker: the parent's slot holds a process that has not exited. */
  predicate HasParent(t: Table, p: nat)
    requires p in t
  {
    t[p].parent >= 0 && t[p].parent in t && !t[t[p].parent].exited
  }

  predicate Enabled(s: State, a: Action) {
    match a
    case Spawn(p) => s.lock == None && IsLeastFree(s.table, p) && |s.table| < PROC_LIMIT
    case ForkCreate(p, c) =>
      s.lock == None && p in s.pc && s.pc[p] == Running && IsLeastFree(s.table, c) && |s.table| < PROC_LIMIT
    case ForkLink(p) => p in s.pc && s.pc[p].ForkMade? && s.pc[p].child in s.table
    case ForkFail(p) => p in s.pc && s.pc[p].ForkLinked?
    case ForkStart(p) => p in s.pc && s.pc[p].ForkLinked?
    case ForkReturn(p) => p in s.pc && s.pc[p].ForkStarted?
    case Exit(p, _) => s.lock == None && p in s.pc && p in s.table && s.pc[p] == Running
    case Finish(p) => p in s.pc && p in s.table && s.pc[p].Exiting?
    case Wait(p, c) => s.lock == None && p in s.pc && s.pc[p] == Running && c in s.table && s.table[c].parent == p
    case Sleep(p) => AtExitFlag(s, p) && !s.table[s.pc[p].child].exited
    case Reap(p) => AtExitFlag(s, p) && s.table[s.pc[p].child].exited
    case Fault(p) => AtExitFlag(s, p) && s.table[s.pc[p].child].exited
  }

  /** Process p, in sys_waitpid with the lock, can test its child's exit flag. */
  predicate AtExitFlag(s: State, p: nat) {
    s.lock == None && p in s.pc && s.pc[p].WaitAwake? && s.pc[p].child in s.table
  }

  function Drop(s: State, p: nat): State {
    s.(table := s.table - {p}, pc := s.pc - {p})
  }

  /** exited_children_cleanup. */
  function Clean(s: State, p: nat): State {
    s.(table := WithoutDeadChildren(s.table, p),
       pc := map i | i in s.pc && !(i in s.table && IsDeadChild(s.table[i], p)) :: s.pc[i])
  }

  /** cv_signal on the wait_child of process p. */
  function Signal(pc: map<nat, Pc>, p: int): map<nat, Pc> {
    if p >= 0 && p in pc && pc[p].WaitAsleep? then pc[p := WaitAwake(pc[p].child, pc[p].serial)] else pc
  }

  /** p becomes a zombie and its parent is signalled. */
  function Exited(s: State, p: nat, code: int): State
    requires p in s.table
  {
    s.(table := s.table[p := s.table[p].(exited := true, code := MkWaitExit(code))],
       pc := Signal(s.pc[p := Zombie], s.table[p].parent))
  }

  function Apply(s: State, a: Action): State
    requires Enabled(s, a)
  {
    match a
    case Spawn(p) =>
      s.(table := s.table[p := Proc(s.next, -1, false, 0)], pc := s.pc[p := Running], next := s.next + 1)
    case ForkCreate(p, c) =>
      s.(table := s.table[c := Proc(s.next, -1, false, 0)], pc := s.pc[p := ForkMade(c, s.next)][c := Embryo(p)],
         next := s.next + 1)
    case ForkLink(p) =>
      var c := s.pc[p].child;
      s.(table := s.table[c := s.table[c].(parent := p)], pc := s.pc[p := ForkLinked(c, s.pc[p].serial)])
    case ForkFail(p) => Drop(s.(pc := s.pc[p := Running]), s.pc[p].child)
    case ForkStart(p) => s.(pc := s.pc[p := ForkStarted(s.pc[p].child, s.pc[p].serial)][s.pc[p].child := Running])
    case ForkReturn(p) => s.(pc := s.pc[p := Running])
    case Exit(p, code) =>
      if !HasParent(s.table, p) then Drop(Clean(s, p), p)
      else
        var q := s.table[p].parent;
        s.(pc := s.pc[p := Exiting(q, s.table[q].serial, code)], lock := Some(p))
    case Finish(p) => Clean(Exited(s, p, s.pc[p].code).(lock := None), p)
    case Wait(p, c) => s.(pc := s.pc[p := WaitAwake(c, s.table[c].serial)])
    case Sleep(p) => s.(pc := s.pc[p := WaitAsleep(s.pc[p].child, s.pc[p].serial)])
    case Reap(p) =>
      var c := s.pc[p].child;
      Drop(s.(pc := s.pc[p := Running], reaped := s.reaped + [Reaping(s.table[c].serial, s.table[c].code)]), c)
    case Fault(p) => s.(pc := s.pc[p := Running])
  }

  /** Process p holds a pointer to the process with this pid and serial number, its child. */
  predicate Holds(s: State, p: nat, c: nat, serial: nat) {
    c in s.table && c in s.pc && s.table[c].serial == serial && s.table[c].parent == p
  }

  ghost predicate TableOk(s: State) {
    && s.pc.Keys == s.table.Keys
    && (forall i: nat | i in s.table :: s.table[i].exited <==> s.pc[i] == Zombie)
    && (forall i: nat | i in s.table :: PID_MIN <= i <= PID_MAX && s.table[i].parent != i)
    && (forall i: nat | i in s.table :: s.table[i].parent == -1 || PID_MIN <= s.table[i].parent <= PID_MAX)
    && (forall i: nat | i in s.pc :: s.pc[i].Exiting? <==> s.lock == Some(i)) && (s.lock.Some? ==> s.lock.value in s.pc)
  }

  /** The parent found by sys__exit is still the process in that slot. */
  predicate ParentHeld(s: State, p: nat)
    requires p in s.pc && s.pc[p].Exiting?
  {
    s.pc[p].parent in s.table && s.table[s.pc[p].parent].serial == s.pc[p].serial
  }

  /** A zombie's parent slot holds a process that has not exited, which can still reap it. */
  ghost predicate ZombiesOk(s: State) {
    forall i: nat | i in s.table && s.table[i].exited :: HasParent(s.table, i)
  }

  predicate PcOk(s: State, p: nat)
    requires p in s.pc
  {
    match s.pc[p]
    case Embryo(q) =>
      q in s.pc && (s.pc[q].ForkMade? || s.pc[q].ForkLinked?) && s.pc[q].child == p
    case ForkMade(c, serial) =>
      c in s.table && c in s.pc && s.table[c].serial == serial && s.table[c].parent == -1 && s.pc[c] == Embryo(p)
    case ForkLinked(c, serial) => Holds(s, p, c, serial) && s.pc[c] == Embryo(p)
    case ForkStarted(c, serial) => Holds(s, p, c, serial) && !s.pc[c].Embryo?
    case WaitAwake(c, serial) => Holds(s, p, c, serial) && !s.pc[c].Embryo?
    case WaitAsleep(c, serial) => Holds(s, p, c, serial) && !s.pc[c].Embryo? && !s.table[c].exited
    case Exiting(q, serial, _) =>
      p in s.table && s.table[p].parent == q && (q in s.table ==> s.table[q].serial == serial && !s.table[q].exited)
    case _ => true
  }

  ghost predicate PcsOk(s: State) {
    forall p: nat | p in s.pc :: PcOk(s, p)
  }

  /** Serial numbers are unique; none that was reaped is in the table or was reaped twice. */
  ghost predicate SerialsOk(s: State) {
    && (forall i: nat | i in s.table :: s.table[i].serial < s.next)
    && (forall i: nat, k | i in s.table && 0 <= k < |s.reaped| :: s.reaped[k].serial != s.table[i].serial)
    && (forall i: nat, j: nat | i in s.table && j in s.table && s.table[i].serial == s.table[j].serial :: i == j)
    && (forall k | 0 <= k < |s.reaped| :: s.reaped[k].serial < s.next)
    && (forall k, m | 0 <= k < m < |s.reaped| :: s.reaped[k].serial != s.reaped[m].serial)
  }

  ghost predicate Inv(s: State) {
    TableOk(s) && PcsOk(s) && SerialsOk(s)
  }

  ghost predicate Init(s: State) {
    s.table == map[] && s.pc == map[] && s.reaped == [] && s.lock == None
  }

  /** Inside sys_fork or sys_waitpid, holding a pointer to a child. */
  predicate Points(pc: Pc) {
    pc.ForkMade? || pc.ForkLinked? || pc.ForkStarted? || pc.WaitAwake? || pc.WaitAsleep?
  }

  /** For whoever points to it, process c is as before. */
  predicate SameProc(s: State, s': State, c: nat) {
    && c in s.table && c in s.pc && c in s'.table && c in s'.pc
    && s'.table[c].serial == s.table[c].serial && s'.table[c].parent == s.table[c].parent
    && (if s.pc[c].Embryo? then s'.pc[c] == s.pc[c] else !s'.pc[c].Embryo?)
    && (s'.table[c].exited ==> s.table[c].exited)
  }

  predicate Making(s: State, q: nat, c: nat) {
    q in s.pc && (s.pc[q].ForkMade? || s.pc[q].ForkLinked?) && s.pc[q].child == c
  }

  /** For a process in the middle of sys__exit, its own entry is as before and its parent's is as before or gone. */
  predicate SameParent(s: State, s': State, q: nat)
    requires q in s.pc && s.pc[q].Exiting?
  {
    && q in s.table && q in s'.table && s'.table[q].parent == s.table[q].parent
    && var r := s.pc[q].parent;
       r in s'.table ==>
         r in s.table && s'.table[r].serial == s.table[r].serial && (s'.table[r].exited ==> s.table[r].exited)
  }

  lemma PcStays(s: State, s': State, q: nat)
    requires q in s.pc && q in s'.pc && s'.pc[q] == s.pc[q] && PcOk(s, q)
    requires Points(s.pc[q]) ==> SameProc(s, s', s.pc[q].child)
    requires s.pc[q].Exiting? ==> SameParent(s, s', q)
    requires s.pc[q].Embryo? ==> Making(s', s.pc[q].creator, q)
    ensures PcOk(s', q)
  {
  }

  /** A process that points to another one is its parent, or is making it, and has not exited. */
  lemma Pointer(s: State, q: nat)
    requires TableOk(s) && q in s.pc && PcOk(s, q) && Points(s.pc[q])
    ensures var c := s.pc[q].child;
            && c in s.table && c in s.pc && q in s.table && !s.table[q].exited && s.table[c].serial == s.pc[q].serial
            && (if s.pc[q].ForkMade? then s.table[c].parent == -1 else s.table[c].parent == q)
            && (if s.pc[q].ForkMade? || s.pc[q].ForkLinked? then s.pc[c] == Embryo(q) else !s.pc[c].Embryo?)
            && (s.pc[q].WaitAsleep? ==> !s.table[c].exited)
  {
  }

  /** An embryo is being made by a process in sys_fork. */
  lemma Creator(s: State, q: nat)
    requires q in s.pc && PcOk(s, q) && s.pc[q].Embryo?
    ensures Making(s, s.pc[q].creator, q)
  {
  }

  // Processes leaving the table.

  /** The processes in gone leave; nobody who stays points to one of them or is being made by one. */
  lemma RemoveKeeps(s: State, s': State, gone: set<nat>)
    requires TableOk(s) && PcsOk(s) && SerialsOk(s) && s.lock == None
    requires s' == s.(table := s.table - gone, pc := s.pc - gone)
    requires forall q: nat | q in s.pc && q !in gone ::
               && (Points(s.pc[q]) ==> s.pc[q].child !in gone)
               && (s.pc[q].Embryo? ==> s.pc[q].creator !in gone)
    ensures Inv(s')
  {
    hide SerialsOk;
    hide PcOk;
    forall q: nat | q in s'.pc
      ensures PcOk(s', q)
    {
      if Points(s.pc[q]) {
        Pointer(s, q);
      } else if s.pc[q].Embryo? {
        Creator(s, q);
      }
      PcStays(s, s', q);
    }
    RemoveSerials(s, s', gone);
  }

  lemma RemoveSerials(s: State, s': State, gone: set<nat>)
    requires SerialsOk(s) && s'.table == s.table - gone && s'.next == s.next && s'.reaped == s.reaped
    ensures SerialsOk(s')
  {
  }

  /** The exited children of p. */
  function DeadChildren(t: Table, p: nat): set<nat> {
    set i | i in t && IsDeadChild(t[i], p)
  }

  lemma CleanIsRemoval(s: State, p: nat)
    requires s.pc.Keys == s.table.Keys
    ensures Clean(s, p) == s.(table := s.table - DeadChildren(s.table, p), pc := s.pc - DeadChildren(s.table, p))
  {
  }

  /** A process that stays neither points to an exited child of p nor is made by one. */
  lemma DeadUnreferenced(s: State, p: nat, q: nat)
    requires TableOk(s) && q in s.pc && PcOk(s, q) && q != p
    ensures Points(s.pc[q]) ==> s.pc[q].child !in DeadChildren(s.table, p)
    ensures s.pc[q].Embryo? ==> s.pc[q].creator !in DeadChildren(s.table, p)
  {
    hide PcOk;
    if Points(s.pc[q]) {
      Pointer(s, q);
    } else if s.pc[q].Embryo? {
      Creator(s, q);
    }
  }

  lemma ExitOrphan(s: State, p: nat, s': State)
    requires Inv(s) && p in s.table && s.pc[p] == Running && !HasParent(s.table, p) && s' == Drop(Clean(s, p), p)
    requires s.lock == None
    ensures Inv(s')
  {
    hide SerialsOk;
    hide PcOk;
    var dead := DeadChildren(s.table, p);
    CleanIsRemoval(s, p);
    assert s.table - dead - {p} == s.table - (dead + {p}) && s.pc - dead - {p} == s.pc - (dead + {p});
    forall q: nat | q in s.pc && q !in dead + {p}
      ensures Points(s.pc[q]) ==> s.pc[q].child !in dead + {p}
      ensures s.pc[q].Embryo? ==> s.pc[q].creator !in dead + {p}
    {
      DeadUnreferenced(s, p, q);
      if Points(s.pc[q]) {
        Pointer(s, q);
      } else if s.pc[q].Embryo? {
        Creator(s, q);
      }
    }
    RemoveKeeps(s, s', dead + {p});
  }

  lemma ExitedPc(s: State, p: nat, code: int, q: nat)
    requires TableOk(s) && p in s.table && s.pc[p].Exiting? && q in s.pc && PcOk(s, q)
    requires s.pc[q].Embryo? ==> s.pc[q].creator in s.pc && PcOk(s, s.pc[q].creator)
    ensures q in Exited(s, p, code).pc && PcOk(Exited(s, p, code).(lock := None), q)
  {
  }

  lemma ExitedPcs(s: State, p: nat, code: int)
    requires TableOk(s) && PcsOk(s) && p in s.table && s.pc[p].Exiting?
    ensures TableOk(Exited(s, p, code).(lock := None)) && PcsOk(Exited(s, p, code).(lock := None))
  {
    hide PcOk;
    var s1 := Exited(s, p, code).(lock := None);
    forall q: nat | q in s1.pc
      ensures PcOk(s1, q)
    {
      if s.pc[q].Embryo? {
        Creator(s, q);
      }
      ExitedPc(s, p, code, q);
    }
  }

  lemma FinishKeeps(s: State, p: nat, code: int, s': State)
    requires Inv(s) && p in s.table && s.pc[p].Exiting? && s' == Clean(Exited(s, p, code).(lock := None), p)
    ensures Inv(s')
  {
    hide SerialsOk;
    hide PcOk;
    hide Signal;
    var s1 := Exited(s, p, code).(lock := None);
    var dead := DeadChildren(s1.table, p);
    ExitedPcs(s, p, code);
    ExitedSerials(s, p, code);
    CleanIsRemoval(s1, p);
    BecomesZombie(s, p, code);
    forall q: nat | q in s1.pc && q !in dead
      ensures Points(s1.pc[q]) ==> s1.pc[q].child !in dead
      ensures s1.pc[q].Embryo? ==> s1.pc[q].creator !in dead
    {
      if q != p {
        DeadUnreferenced(s1, p, q);
      }
    }
    RemoveKeeps(s1, s', dead);
  }

  lemma BecomesZombie(s: State, p: nat, code: int)
    requires p in s.table
    ensures p in Exited(s, p, code).pc && Exited(s, p, code).pc[p] == Zombie
  {
  }

  /** sys__exit finds its parent. */
  lemma ExitLookKeeps(s: State, p: nat, code: int, s': State)
    requires Inv(s) && p in s.table && s.pc[p] == Running && s.lock == None && HasParent(s.table, p)
    requires var q := s.table[p].parent;
             s' == s.(pc := s.pc[p := Exiting(q, s.table[q].serial, code)], lock := Some(p))
    ensures Inv(s')
  {
    hide SerialsOk;
    hide PcOk;
    ExitingOk(s', p);
    forall q: nat | q in s'.pc && q != p
      ensures PcOk(s', q)
    {
      if Points(s.pc[q]) {
        Pointer(s, q);
      } else if s.pc[q].Embryo? {
        Creator(s, q);
      }
      PcStays(s, s', q);
    }
    SerialsSame(s, s');
  }

  lemma ExitingOk(s: State, p: nat)
    requires p in s.pc && p in s.table && s.pc[p].Exiting? && s.table[p].parent == s.pc[p].parent
    requires HasParent(s.table, p) && s.table[s.pc[p].parent].serial == s.pc[p].serial
    ensures PcOk(s, p)
  {
  }

  lemma ExitedSerials(s: State, p: nat, code: int)
    requires SerialsOk(s) && p in s.table
    ensures SerialsOk(Exited(s, p, code).(lock := None))
  {
  }

  // Processes that stay.

  lemma SerialsSame(s: State, s': State)
    requires SerialsOk(s) && s'.table == s.table && s'.next == s.next && s'.reaped == s.reaped
    ensures SerialsOk(s')
  {
  }

  /** Process p moves on in sys_fork or sys_waitpid; nobody else depends on where it was. */
  lemma MoveKeeps(s: State, s': State, p: nat, pc: Pc)
    requires Inv(s) && p in s.pc && s' == s.(pc := s.pc[p := pc]) && PcOk(s', p)
    requires !s.pc[p].Embryo? && !s.pc[p].ForkMade? && !s.pc[p].ForkLinked? && s.pc[p] != Zombie && !s.pc[p].Exiting?
    requires !pc.Embryo? && pc != Zombie && !pc.Exiting?
    ensures Inv(s')
  {
    hide SerialsOk;
    hide PcOk;
    forall q: nat | q in s'.pc && q != p
      ensures PcOk(s', q)
    {
      if Points(s.pc[q]) {
        Pointer(s, q);
      } else if s.pc[q].Embryo? {
        Creator(s, q);
      }
      PcStays(s, s', q);
    }
    SerialsSame(s, s');
  }

  lemma AddSerials(s: State, s': State, c: nat, parent: int)
    requires SerialsOk(s) && c !in s.table && s'.table == s.table[c := Proc(s.next, parent, false, 0)]
    requires s'.next == s.next + 1 && s'.reaped == s.reaped
    ensures SerialsOk(s')
  {
  }

  lemma SpawnKeeps(s: State, p: nat, s': State)
    requires Inv(s) && s.lock == None && IsLeastFree(s.table, p) && |s.table| < PROC_LIMIT
    requires s' == s.(table := s.table[p := Proc(s.next, -1, false, 0)], pc := s.pc[p := Running], next := s.next + 1)
    ensures Inv(s')
  {
    hide SerialsOk;
    hide PcOk;
    LeastFreeInRange(s.table, p);
    AddSerials(s, s', p, -1);
    RunningOk(s', p);
    forall q: nat | q in s.pc
      ensures PcOk(s', q)
    {
      if Points(s.pc[q]) {
        Pointer(s, q);
      } else if s.pc[q].Embryo? {
        Creator(s, q);
      }
      PcStays(s, s', q);
    }
  }

  lemma RunningOk(s: State, p: nat)
    requires p in s.pc && s.pc[p] == Running
    ensures PcOk(s, p)
  {
  }

  lemma ForkCreateKeeps(s: State, p: nat, c: nat, s': State)
    requires s.lock == None && |s.table| < PROC_LIMIT && p in s.pc && s.pc[p] == Running
    requires s' == s.(table := s.table[c := Proc(s.next, -1, false, 0)],
                      pc := s.pc[p := ForkMade(c, s.next)][c := Embryo(p)], next := s.next + 1)
    requires IsLeastFree(s.table, c) && Inv(s)
    ensures Inv(s')
  {
    hide SerialsOk;
    hide PcOk;
    LeastFreeInRange(s.table, c);
    AddSerials(s, s', c, -1);
    NewEmbryo(s', p, c);
    forall q: nat | q in s.pc && q != p
      ensures PcOk(s', q)
    {
      if Points(s.pc[q]) {
        Pointer(s, q);
      } else if s.pc[q].Embryo? {
        Creator(s, q);
      }
      PcStays(s, s', q);
    }
  }

  lemma NewEmbryo(s: State, p: nat, c: nat)
    requires p in s.pc && c in s.pc && p != c && c in s.table && s.pc[c] == Embryo(p)
    requires (s.pc[p] == ForkMade(c, s.table[c].serial) && s.table[c].parent == -1)
          || (s.pc[p] == ForkLinked(c, s.table[c].serial) && s.table[c].parent == p)
    ensures PcOk(s, p) && PcOk(s, c)
  {
  }

  /** Only its creator points to an embryo. */
  lemma SolePointer(s: State, p: nat, q: nat)
    requires TableOk(s) && p in s.pc && q in s.pc && PcOk(s, p) && PcOk(s, q) && p != q
    requires s.pc[p].ForkMade? || s.pc[p].ForkLinked?
    ensures Points(s.pc[q]) ==> s.pc[q].child != s.pc[p].child
    ensures s.pc[q].Embryo? && s.pc[q].creator == p ==> q == s.pc[p].child
  {
  }

  lemma ForkLinkKeeps(s: State, p: nat, s': State, c: nat)
    requires Inv(s) && p in s.pc && s.pc[p].ForkMade? && c == s.pc[p].child && c in s.table
    requires s' == s.(table := s.table[c := s.table[c].(parent := p)], pc := s.pc[p := ForkLinked(c, s.pc[p].serial)])
    ensures Inv(s')
  {
    hide SerialsOk;
    hide PcOk;
    Pointer(s, p);
    LinkSerials(s, s', c, p);
    NewEmbryo(s', p, c);
    forall q: nat | q in s.pc && q != p && q != c
      ensures PcOk(s', q)
    {
      SolePointer(s, p, q);
      if Points(s.pc[q]) {
        Pointer(s, q);
      } else if s.pc[q].Embryo? {
        Creator(s, q);
      }
      PcStays(s, s', q);
    }
  }

  lemma LinkSerials(s: State, s': State, c: nat, p: nat)
    requires SerialsOk(s) && c in s.table && s'.table == s.table[c := s.table[c].(parent := p)]
    requires s'.next == s.next && s'.reaped == s.reaped
    ensures SerialsOk(s')
  {
  }

  lemma ForkFailKeeps(s: State, p: nat, s': State, c: nat)
    requires Inv(s) && p in s.pc && s.pc[p].ForkLinked? && c == s.pc[p].child
    requires s' == s.(table := s.table - {c}, pc := s.pc[p := Running] - {c})
    ensures Inv(s')
  {
    hide SerialsOk;
    hide PcOk;
    Pointer(s, p);
    RemoveSerials(s, s', {c});
    RunningOk(s', p);
    forall q: nat | q in s.pc && q != p && q != c
      ensures PcOk(s', q)
    {
      SolePointer(s, p, q);
      if Points(s.pc[q]) {
        Pointer(s, q);
      } else if s.pc[q].Embryo? {
        Creator(s, q);
      }
      PcStays(s, s', q);
    }
  }

  lemma StartedTable(s: State, p: nat, s': State, c: nat)
    requires TableOk(s) && p in s.table && c in s.table && s.pc[c].Embryo? && s.pc[p].ForkLinked?
    requires s' == s.(pc := s.pc[p := ForkStarted(c, s.pc[p].serial)][c := Running])
    ensures TableOk(s')
  {
  }

  lemma ForkStartKeeps(s: State, p: nat, s': State, c: nat)
    requires p in s.pc && s.pc[p].ForkLinked? && c == s.pc[p].child
    requires s' == s.(pc := s.pc[p := ForkStarted(c, s.pc[p].serial)][c := Running])
    requires Inv(s)
    ensures Inv(s')
  {
    hide SerialsOk;
    hide PcOk;
    hide TableOk;
    Pointer(s, p);
    SerialsSame(s, s');
    StartedTable(s, p, s', c);
    RunningOk(s', c);
    StartedOk(s', p);
    forall q: nat | q in s.pc && q != p && q != c
      ensures PcOk(s', q)
    {
      SolePointer(s, p, q);
      if Points(s.pc[q]) {
        Pointer(s, q);
      } else if s.pc[q].Embryo? {
        Creator(s, q);
      }
      PcStays(s, s', q);
    }
  }

  lemma StartedOk(s: State, p: nat)
    requires p in s.pc && (s.pc[p].ForkStarted? || s.pc[p].WaitAwake?) && Holds(s, p, s.pc[p].child, s.pc[p].serial)
    requires !s.pc[s.pc[p].child].Embryo?
    ensures PcOk(s, p)
  {
  }

  /** A child whose parent is not inside sys_fork has been started. */
  lemma ChildStarted(s: State, p: nat, c: nat)
    requires Inv(s) && p in s.pc && s.pc[p] == Running && c in s.table && s.table[c].parent == p
    ensures !s.pc[c].Embryo?
  {
    hide SerialsOk;
    hide PcOk;
    if s.pc[c].Embryo? {
      Creator(s, c);
      Pointer(s, s.pc[c].creator);
    }
  }

  lemma WaitKeeps(s: State, p: nat, c: nat, s': State)
    requires Inv(s) && p in s.pc && s.pc[p] == Running && c in s.table && s.table[c].parent == p
    requires s' == s.(pc := s.pc[p := WaitAwake(c, s.table[c].serial)])
    ensures Inv(s')
  {
    hide PcsOk;
    hide SerialsOk;
    hide PcOk;
    ChildStarted(s, p, c);
    StartedOk(s', p);
    MoveKeeps(s, s', p, s'.pc[p]);
  }

  lemma SleepKeeps(s: State, p: nat, s': State)
    requires Inv(s) && p in s.pc && s.pc[p].WaitAwake? && s.pc[p].child in s.table && !s.table[s.pc[p].child].exited
    requires s' == s.(pc := s.pc[p := WaitAsleep(s.pc[p].child, s.pc[p].serial)])
    ensures Inv(s')
  {
    hide SerialsOk;
    assert PcOk(s, p);
    MoveKeeps(s, s', p, s'.pc[p]);
  }

  lemma ResumeKeeps(s: State, p: nat, s': State)
    requires Inv(s) && p in s.pc && (s.pc[p].ForkStarted? || s.pc[p].WaitAwake?) && s' == s.(pc := s.pc[p := Running])
    ensures Inv(s')
  {
    hide SerialsOk;
    hide PcsOk;
    MoveKeeps(s, s', p, Running);
  }

  lemma ReapKeeps(s: State, p: nat, s': State, c: nat)
    requires Inv(s) && p in s.pc && s.pc[p].WaitAwake? && c == s.pc[p].child && c in s.table && s.table[c].exited
    requires s.lock == None
    requires s' == s.(table := s.table - {c}, pc := s.pc[p := Running] - {c},
                      reaped := s.reaped + [Reaping(s.table[c].serial, s.table[c].code)])
    ensures Inv(s')
  {
    hide SerialsOk;
    hide PcOk;
    Pointer(s, p);
    ReapSerials(s, s', c);
    RunningOk(s', p);
    forall q: nat | q in s.pc && q != p && q != c
      ensures PcOk(s', q)
    {
      if Points(s.pc[q]) {
        Pointer(s, q);
      } else if s.pc[q].Embryo? {
        Creator(s, q);
      }
      PcStays(s, s', q);
    }
  }

  lemma ReapSerials(s: State, s': State, c: nat)
    requires SerialsOk(s) && c in s.table && s'.table == s.table - {c} && s'.next == s.next
    requires s'.reaped == s.reaped + [Reaping(s.table[c].serial, s.table[c].code)]
    ensures SerialsOk(s')
  {
  }

  lemma StepKeeps(s: State, a: Action)
    requires Inv(s) && Enabled(s, a)
    ensures Inv(Apply(s, a))
  {
    hide Inv;
    var s' := Apply(s, a);
    match a {
      case Spawn(p) => SpawnKeeps(s, p, s');
      case ForkCreate(p, c) => ForkCreateKeeps(s, p, c, s');
      case ForkLink(p) => ForkLinkKeeps(s, p, s', s.pc[p].child);
      case ForkFail(p) => ForkFailKeeps(s, p, s', s.pc[p].child);
      case ForkStart(p) => ForkStartKeeps(s, p, s', s.pc[p].child);
      case ForkReturn(p) => ResumeKeeps(s, p, s');
      case Exit(p, code) =>
        if HasParent(s.table, p) {
          ExitLookKeeps(s, p, code, s');
        } else {
          ExitOrphan(s, p, s');
        }
      case Finish(p) => FinishKeeps(s, p, s.pc[p].code, s');
      case Wait(p, c) => WaitKeeps(s, p, c, s');
      case Sleep(p) => SleepKeeps(s, p, s');
      case Reap(p) => ReapKeeps(s, p, s', s.pc[p].child);
      case Fault(p) => ResumeKeeps(s, p, s');
    }
  }

  // Zombies. Only a fork that fails after linking its child frees a pid without looking for processes that have
  // taken that pid for their parent's: one that has exited already, or one that is in the middle of it.

  /**
   * The step is neither a failing fork whose unborn child some zombie takes for its parent, nor the end of an exit
   * whose parent has been lost since it was found.
   */
  ghost predicate LeavesNoOrphan(s: State, a: Action)
    requires Enabled(s, a)
  {
    && (a.ForkFail? ==> forall z: nat | z in s.table && s.table[z].exited :: s.table[z].parent != s.pc[a.p].child)
    && (a.Finish? ==> ParentHeld(s, a.p))
  }

  lemma ExitZombies(s: State, p: nat, code: int)
    requires Inv(s) && ZombiesOk(s) && Enabled(s, Exit(p, code))
    ensures ZombiesOk(Apply(s, Exit(p, code)))
  {
    hide PcsOk;
    hide SerialsOk;
    var s' := Apply(s, Exit(p, code));
    forall z: nat | z in s'.table && s'.table[z].exited
      ensures HasParent(s'.table, z)
    {
      assert HasParent(s.table, z);
    }
  }

  lemma FinishZombies(s: State, p: nat)
    requires Inv(s) && ZombiesOk(s) && Enabled(s, Finish(p))
    ensures ZombiesOk(Apply(s, Finish(p))) <==> ParentHeld(s, p)
  {
    hide SerialsOk;
    hide PcsOk;
    hide Signal;
    FoundParent(s, p);
    var s' := Apply(s, Finish(p));
    assert p in s'.table && s'.table[p].exited && s'.table[p].parent == s.table[p].parent;
    if ParentHeld(s, p) {
      forall z: nat | z in s'.table && s'.table[z].exited
        ensures HasParent(s'.table, z)
      {
        if z != p {
          assert HasParent(s.table, z);
        }
      }
    }
  }

  lemma FoundParent(s: State, p: nat)
    requires Inv(s) && p in s.pc && s.pc[p].Exiting?
    ensures p in s.table && !s.table[p].exited && s.table[p].parent == s.pc[p].parent != p
    ensures ParentHeld(s, p) <==> s.pc[p].parent in s.table
    ensures ParentHeld(s, p) ==> !s.table[s.pc[p].parent].exited
  {
    hide SerialsOk;
    assert PcOk(s, p);
  }

  lemma OtherZombies(s: State, a: Action)
    requires Inv(s) && ZombiesOk(s) && Enabled(s, a) && LeavesNoOrphan(s, a) && !a.Exit? && !a.Finish?
    ensures ZombiesOk(Apply(s, a))
  {
    hide SerialsOk;
    hide PcOk;
    var s' := Apply(s, a);
    if !a.Spawn? && Points(s.pc[a.p]) {
      Pointer(s, a.p);
    }
    forall z: nat | z in s'.table && s'.table[z].exited
      ensures HasParent(s'.table, z)
    {
      assert HasParent(s.table, z);
    }
  }

  /** A step keeps every zombie's parent in place if and only if it is neither of the two. */
  lemma ZombieStep(s: State, a: Action)
    requires Inv(s) && ZombiesOk(s) && Enabled(s, a)
    ensures ZombiesOk(Apply(s, a)) <==> LeavesNoOrphan(s, a)
  {
    hide Inv;
    hide Apply;
    hide ZombiesOk;
    if a.Finish? {
      FinishZombies(s, a.p);
    } else if a.Exit? {
      ExitZombies(s, a.p, a.code);
    } else if LeavesNoOrphan(s, a) {
      OtherZombies(s, a);
    } else {
      FailOrphans(s, a.p);
    }
  }

  lemma FailOrphans(s: State, p: nat)
    requires Inv(s) && Enabled(s, ForkFail(p)) && !LeavesNoOrphan(s, ForkFail(p))
    ensures !ZombiesOk(Apply(s, ForkFail(p)))
  {
    hide SerialsOk;
    hide PcOk;
    var c := s.pc[p].child;
    var z: nat :| z in s.table && s.table[z].exited && s.table[z].parent == c;
    Pointer(s, p);
    assert z in Apply(s, ForkFail(p)).table && !HasParent(Apply(s, ForkFail(p)).table, z);
  }

  ghost predicate IsRun(states: seq<State>, acts: seq<Action>) {
    && |states| == |acts| + 1 && Init(states[0])
    && forall k | 0 <= k < |acts| :: Enabled(states[k], acts[k]) && states[k + 1] == Apply(states[k], acts[k])
  }

  lemma {:induction false} RunInv(states: seq<State>, acts: seq<Action>, k: nat)
    requires IsRun(states, acts) && k < |states|
    ensures Inv(states[k])
  {
    if k > 0 {
      hide Inv;
      hide Apply;
      hide Enabled;
      RunInv(states, acts, k - 1);
      StepKeeps(states[k - 1], acts[k - 1]);
    }
  }

  lemma {:induction false} RunZombies(states: seq<State>, acts: seq<Action>, k: nat)
    requires IsRun(states, acts) && k < |states|
    requires forall j | 0 <= j < k :: LeavesNoOrphan(states[j], acts[j])
    ensures ZombiesOk(states[k])
  {
    if k > 0 {
      hide Inv;
      hide ZombiesOk;
      hide Apply;
      hide Enabled;
      hide LeavesNoOrphan;
      RunZombies(states, acts, k - 1);
      RunInv(states, acts, k - 1);
      ZombieStep(states[k - 1], acts[k - 1]);
    }
  }

  /**
   * In every run, the child that sys_waitpid or the last part of sys_fork holds a pointer to is still the same
   * process, in the table under its pid; and a parent asleep in cv_wait waits for a child that has not exited.
   */
  lemma PointersValid(states: seq<State>, acts: seq<Action>, k: nat, p: nat)
    requires IsRun(states, acts) && k < |states| && p in states[k].pc
    requires states[k].pc[p].ForkStarted? || states[k].pc[p].WaitAwake? || states[k].pc[p].WaitAsleep?
    ensures Holds(states[k], p, states[k].pc[p].child, states[k].pc[p].serial)
    ensures states[k].pc[p].WaitAsleep? ==> !states[k].table[states[k].pc[p].child].exited
  {
    hide Apply;
    hide Enabled;
    RunInv(states, acts, k);
    assert PcOk(states[k], p);
  }

  /** The step destroys the process that p, in the middle of sys__exit, found as its parent. */
  predicate LosesParent(s: State, a: Action, p: nat)
    requires p in s.pc && s.pc[p].Exiting?
  {
    a.ForkFail? && a.p in s.pc && s.pc[a.p].ForkLinked? && s.pc[a.p].child == s.pc[p].parent
  }

  /**
   * From finding its parent to signalling it, a process in sys__exit has the lock, and its pointer to the parent
   * stays valid through a step if and only if that is not the failing fork of that very parent.
   */
  lemma ParentStep(s: State, a: Action, p: nat)
    requires Inv(s) && Enabled(s, a) && p in s.pc && s.pc[p].Exiting? && ParentHeld(s, p) && a != Finish(p)
    ensures var s' := Apply(s, a);
            p in s'.pc && s'.pc[p] == s.pc[p] && (ParentHeld(s', p) <==> !LosesParent(s, a, p))
  {
    hide SerialsOk;
    hide PcOk;
    FoundParent(s, p);
    if Points(s.pc[a.p]) {
      Pointer(s, a.p);
    }
  }

  /** Process p found its parent at step j of a run and is still in sys__exit at state k. */
  ghost predicate InExit(states: seq<State>, acts: seq<Action>, p: nat, j: nat, k: nat)
    requires IsRun(states, acts)
  {
    && j < k < |states| && acts[j].Exit? && acts[j].p == p && p in states[j].table && HasParent(states[j].table, p)
    && forall m | j < m < k :: acts[m] != Finish(p)
  }

  /**
   * In every run, the parent that sys__exit found is still there when it is signalled, if and only if no fork failed
   * in between that was making it.
   */
  lemma {:induction false} ParentStays(states: seq<State>, acts: seq<Action>, p: nat, j: nat, k: nat)
    requires IsRun(states, acts) && InExit(states, acts, p, j, k)
    ensures forall m | j < m <= k :: p in states[m].pc && states[m].pc[p].Exiting?
    ensures ParentHeld(states[k], p) <==> forall m | j < m < k :: !LosesParent(states[m], acts[m], p)
    decreases k - j
  {
    hide Inv;
    hide Apply;
    hide Enabled;
    hide HasParent;
    hide ParentHeld;
    hide LosesParent;
    RunInv(states, acts, j);
    RunInv(states, acts, k - 1);
    if k == j + 1 {
      assert acts[j] == Exit(p, acts[j].code);
      ExitFinds(states[j], p, acts[j].code);
    } else {
      ParentStays(states, acts, p, j, k - 1);
      var s, a := states[k - 1], acts[k - 1];
      if ParentHeld(s, p) {
        ParentStep(s, a, p);
      } else {
        LostStays(s, a, p);
      }
    }
  }

  lemma ExitFinds(s: State, p: nat, code: int)
    requires Inv(s) && Enabled(s, Exit(p, code)) && HasParent(s.table, p)
    ensures var s' := Apply(s, Exit(p, code)); p in s'.pc && s'.pc[p].Exiting? && ParentHeld(s', p)
  {
    hide PcsOk;
    hide SerialsOk;
  }

  lemma LostStays(s: State, a: Action, p: nat)
    requires Inv(s) && Enabled(s, a) && p in s.pc && s.pc[p].Exiting? && !ParentHeld(s, p) && a != Finish(p)
    ensures var s' := Apply(s, a); p in s'.pc && s'.pc[p] == s.pc[p] && !ParentHeld(s', p)
  {
    hide SerialsOk;
    hide PcOk;
    FoundParent(s, p);
    if Points(s.pc[a.p]) {
      Pointer(s, a.p);
    }
  }

  /** A process in the middle of sys__exit got there by finding its parent. */
  lemma {:induction false} ExitBegan(states: seq<State>, acts: seq<Action>, p: nat, k: nat) returns (j: nat)
    requires IsRun(states, acts) && k < |states| && p in states[k].pc && states[k].pc[p].Exiting?
    ensures InExit(states, acts, p, j, k)
  {
    hide Inv;
    hide Apply;
    hide Enabled;
    hide HasParent;
    assert k > 0;
    RunInv(states, acts, k - 1);
    var s, a := states[k - 1], acts[k - 1];
    BecomesExiting(s, a, p);
    if p in s.pc && s.pc[p].Exiting? {
      j := ExitBegan(states, acts, p, k - 1);
    } else {
      j := k - 1;
    }
  }

  lemma BecomesExiting(s: State, a: Action, p: nat)
    requires Inv(s) && Enabled(s, a) && p in Apply(s, a).pc && Apply(s, a).pc[p].Exiting?
    ensures (p in s.pc && s.pc[p].Exiting? && a != Finish(p))
         || (a.Exit? && a.p == p && p in s.table && HasParent(s.table, p))
  {
    hide PcsOk;
    hide SerialsOk;
  }

  /** A parent that has been lost stays lost until the exit is over. */
  lemma {:induction false} StaysLost(states: seq<State>, acts: seq<Action>, p: nat, m: nat, k: nat)
    requires IsRun(states, acts) && m <= k < |states| && p in states[m].pc && states[m].pc[p].Exiting?
    requires !ParentHeld(states[m], p) && forall n | m <= n < k :: acts[n] != Finish(p)
    ensures p in states[k].pc && states[k].pc[p].Exiting? && !ParentHeld(states[k], p)
  {
    hide Inv;
    hide Apply;
    hide Enabled;
    hide ParentHeld;
    if k > m {
      StaysLost(states, acts, p, m, k - 1);
      RunInv(states, acts, k - 1);
      LostStays(states[k - 1], acts[k - 1], p);
    }
  }

  /**
   * Step m of the run is a failing fork, of a child whose pid is the parent's of a zombie, or of a process that is in
   * the middle of sys__exit and gets to its end later in the run.
   */
  ghost predicate Orphans(states: seq<State>, acts: seq<Action>, m: nat)
    requires IsRun(states, acts) && m < |acts|
  {
    var s, a := states[m], acts[m];
    && a.ForkFail? && a.p in s.pc && s.pc[a.p].ForkLinked?
    && ((exists z: nat :: z in s.table && s.table[z].exited && s.table[z].parent == s.pc[a.p].child)
        || (exists p: nat, k: nat :: m < k < |acts| && acts[k] == Finish(p) && ExitsTo(s, p, s.pc[a.p].child)))
  }

  predicate ExitsTo(s: State, p: nat, q: nat) {
    p in s.pc && s.pc[p].Exiting? && s.pc[p].parent == q
  }

  lemma {:induction false} FirstFinish(acts: seq<Action>, p: nat, m: nat, k: nat) returns (n: nat)
    requires m <= k < |acts| && acts[k] == Finish(p)
    ensures m <= n <= k && acts[n] == Finish(p) && forall i | m <= i < n :: acts[i] != Finish(p)
    decreases k - m
  {
    if acts[m] == Finish(p) {
      n := m;
    } else {
      n := FirstFinish(acts, p, m + 1, k);
    }
  }

  /** Such a fork leaves an orphaned zombie behind, at once or when the exit ends. */
  lemma OrphansLeft(states: seq<State>, acts: seq<Action>, m: nat)
    requires IsRun(states, acts) && m < |acts| && Orphans(states, acts, m)
    ensures exists k :: 0 <= k < |acts| && !LeavesNoOrphan(states[k], acts[k])
  {
    hide Inv;
    hide Apply;
    hide ParentHeld;
    var s, a := states[m], acts[m];
    if forall z: nat | z in s.table && s.table[z].exited :: s.table[z].parent != s.pc[a.p].child {
      var p: nat, k: nat :| m < k < |acts| && acts[k] == Finish(p) && ExitsTo(s, p, s.pc[a.p].child);
      RunInv(states, acts, m);
      FailLoses(s, a, p);
      var n := FirstFinish(acts, p, m + 1, k);
      StaysLost(states, acts, p, m + 1, n);
      assert !LeavesNoOrphan(states[n], acts[n]);
    } else {
      assert !LeavesNoOrphan(s, a);
    }
  }

  lemma FailLoses(s: State, a: Action, p: nat)
    requires Inv(s) && Enabled(s, a) && p in s.pc && s.pc[p].Exiting? && LosesParent(s, a, p)
    ensures var s' := Apply(s, a); p in s'.pc && s'.pc[p].Exiting? && !ParentHeld(s', p)
  {
    hide SerialsOk;
    hide PcOk;
    FoundParent(s, p);
    Pointer(s, a.p);
  }

  /** Without such forks no step orphans a zombie. */
  lemma NoOrphans(states: seq<State>, acts: seq<Action>, k: nat)
    requires IsRun(states, acts) && k < |acts| && forall m | 0 <= m < |acts| :: !Orphans(states, acts, m)
    ensures LeavesNoOrphan(states[k], acts[k])
  {
    hide Inv;
    hide Apply;
    hide ParentHeld;
    var s, a := states[k], acts[k];
    if a.Finish? {
      var p := a.p;
      var j := ExitBegan(states, acts, p, k);
      ParentStays(states, acts, p, j, k);
      forall m | j < m < k
        ensures !LosesParent(states[m], acts[m], p)
      {
        assert !Orphans(states, acts, m) && acts[k] == Finish(p);
      }
    } else if a.ForkFail? {
      assert !Orphans(states, acts, k);
    }
  }

  /** Throughout a run every zombie's parent slot holds a live process, if and only if no fork fails as above. */
  lemma ZombiesHaveParents(states: seq<State>, acts: seq<Action>)
    requires IsRun(states, acts)
    ensures (forall k | 0 <= k < |states| :: ZombiesOk(states[k]))
       <==> (forall m | 0 <= m < |acts| :: !Orphans(states, acts, m))
  {
    hide Inv;
    hide ZombiesOk;
    hide Apply;
    hide Enabled;
    hide LeavesNoOrphan;
    hide Orphans;
    if forall m | 0 <= m < |acts| :: !Orphans(states, acts, m) {
      forall k | 0 <= k < |states|
        ensures ZombiesOk(states[k])
      {
        forall i | 0 <= i < k
          ensures LeavesNoOrphan(states[i], acts[i])
        {
          NoOrphans(states, acts, i);
        }
        RunZombies(states, acts, k);
      }
    } else {
      var m: nat :| m < |acts| && Orphans(states, acts, m);
      OrphansLeft(states, acts, m);
      var k :| 0 <= k < |acts| && !LeavesNoOrphan(states[k], acts[k]);
      if ZombiesOk(states[k]) {
        RunInv(states, acts, k);
        ZombieStep(states[k], acts[k]);
        assert !ZombiesOk(states[k + 1]);
      }
    }
  }

  /**
   * A caller can tell in advance: when the parent's slot does not hold a process that is still being made, the
   * pointer is valid for as long as the exit takes.
   */
  lemma {:induction false} GrownParentStays(states: seq<State>, acts: seq<Action>, p: nat, j: nat, k: nat)
    requires IsRun(states, acts) && InExit(states, acts, p, j, k)
    requires states[j].table[p].parent in states[j].pc && !states[j].pc[states[j].table[p].parent].Embryo?
    ensures p in states[k].pc && states[k].pc[p].Exiting? && ParentHeld(states[k], p)
    ensures states[k].pc[p].parent in states[k].pc && !states[k].pc[states[k].pc[p].parent].Embryo?
    decreases k - j
  {
    hide Inv;
    hide Apply;
    hide Enabled;
    hide HasParent;
    hide ParentHeld;
    RunInv(states, acts, j);
    RunInv(states, acts, k - 1);
    if k == j + 1 {
      assert acts[j] == Exit(p, acts[j].code);
      ExitFinds(states[j], p, acts[j].code);
      KeepsParentPc(states[j], p, acts[j].code);
    } else {
      GrownParentStays(states, acts, p, j, k - 1);
      GrownStep(states[k - 1], acts[k - 1], p);
    }
  }

  /** The run goes on without p, in sys__exit, getting to its end. */
  ghost predicate Continues(states: seq<State>, acts: seq<Action>, states': seq<State>, acts': seq<Action>, p: nat) {
    && states <= states' && acts <= acts' && IsRun(states', acts')
    && forall m | |acts| <= m < |acts'| :: acts'[m] != Finish(p)
  }

  predicate Lost(s: State, p: nat) {
    p in s.pc && s.pc[p].Exiting? && !ParentHeld(s, p)
  }

  /** Some continuation of the run loses the parent of p before p, in sys__exit, gets to signalling it. */
  ghost predicate CanLose(states: seq<State>, acts: seq<Action>, p: nat) {
    exists states', acts' :: Continues(states, acts, states', acts', p) && Lost(states'[|acts'|], p)
  }

  lemma Extends(states: seq<State>, acts: seq<Action>, a: Action)
    requires IsRun(states, acts) && Enabled(states[|acts|], a)
    ensures IsRun(states + [Apply(states[|acts|], a)], acts + [a])
  {
    hide Enabled;
    hide Apply;
  }

  /** Whoever is making an embryo can fail to. */
  lemma CreatorCanFail(s: State, p: nat)
    requires Inv(s) && p in s.pc && s.pc[p].Exiting? && s.pc[p].parent in s.pc && s.pc[s.pc[p].parent].Embryo?
    ensures var q := s.pc[s.pc[p].parent].creator;
            || (Enabled(s, ForkFail(q)) && LosesParent(s, ForkFail(q), p))
            || (&& Enabled(s, ForkLink(q))
                && var s1 := Apply(s, ForkLink(q));
                   && p in s1.pc && s1.pc[p] == s.pc[p] && Enabled(s1, ForkFail(q)) && LosesParent(s1, ForkFail(q), p))
  {
    hide SerialsOk;
    hide PcOk;
    var c := s.pc[p].parent;
    Creator(s, c);
    Pointer(s, s.pc[c].creator);
  }

  /** When a process has just found its parent, a continuation can lose it if and only if it is still being made. */
  lemma ParentCanGo(states: seq<State>, acts: seq<Action>, p: nat)
    requires IsRun(states, acts) && |acts| > 0 && InExit(states, acts, p, |acts| - 1, |acts|)
    ensures states[|acts| - 1].table[p].parent in states[|acts| - 1].pc
    ensures CanLose(states, acts, p) <==> states[|acts| - 1].pc[states[|acts| - 1].table[p].parent].Embryo?
  {
    hide Inv;
    hide Apply;
    hide Enabled;
    hide HasParent;
    hide ParentHeld;
    var n := |acts|;
    var before, s := states[n - 1], states[n];
    RunInv(states, acts, n - 1);
    RunInv(states, acts, n);
    assert acts[n - 1] == Exit(p, acts[n - 1].code);
    KeepsParentPc(before, p, acts[n - 1].code);
    if before.pc[before.table[p].parent].Embryo? {
      EmbryoCanGo(states, acts, p);
    } else if CanLose(states, acts, p) {
      var states', acts' :| Continues(states, acts, states', acts', p) && Lost(states'[|acts'|], p);
      assert states'[n - 1] == before && acts'[n - 1] == acts[n - 1];
      GrownParentStays(states', acts', p, n - 1, |acts'|);
    }
  }

  lemma EmbryoCanGo(states: seq<State>, acts: seq<Action>, p: nat)
    requires IsRun(states, acts) && p in states[|acts|].pc && states[|acts|].pc[p].Exiting?
    requires var s := states[|acts|]; s.pc[p].parent in s.pc && s.pc[s.pc[p].parent].Embryo?
    ensures CanLose(states, acts, p)
  {
    hide Inv;
    hide Apply;
    hide Enabled;
    hide LosesParent;
    hide ParentHeld;
    RunInv(states, acts, |acts|);
    var s := states[|acts|];
    CreatorCanFail(s, p);
    var q := s.pc[s.pc[p].parent].creator;
    if Enabled(s, ForkFail(q)) && LosesParent(s, ForkFail(q), p) {
      Extends(states, acts, ForkFail(q));
      FailLoses(s, ForkFail(q), p);
      assert Continues(states, acts, states + [Apply(s, ForkFail(q))], acts + [ForkFail(q)], p);
    } else {
      var s1 := Apply(s, ForkLink(q));
      StepKeeps(s, ForkLink(q));
      Extends(states, acts, ForkLink(q));
      var states1, acts1 := states + [s1], acts + [ForkLink(q)];
      Extends(states1, acts1, ForkFail(q));
      FailLoses(s1, ForkFail(q), p);
      assert Continues(states, acts, states1 + [Apply(s1, ForkFail(q))], acts1 + [ForkFail(q)], p);
    }
  }

  lemma KeepsParentPc(s: State, p: nat, code: int)
    requires Inv(s) && Enabled(s, Exit(p, code)) && HasParent(s.table, p)
    ensures var s' := Apply(s, Exit(p, code));
            p in s'.pc && s'.pc[p].Exiting? && s'.pc[p].parent == s.table[p].parent && s.table[p].parent in s.pc
            && s.table[p].parent in s'.pc && s'.pc[s.table[p].parent] == s.pc[s.table[p].parent]
  {
    hide PcsOk;
    hide SerialsOk;
  }

  lemma GrownStep(s: State, a: Action, p: nat)
    requires Inv(s) && Enabled(s, a) && p in s.pc && s.pc[p].Exiting? && ParentHeld(s, p) && a != Finish(p)
    requires s.pc[p].parent in s.pc && !s.pc[s.pc[p].parent].Embryo?
    ensures var s' := Apply(s, a);
            p in s'.pc && s'.pc[p] == s.pc[p] && ParentHeld(s', p)
            && s.pc[p].parent in s'.pc && !s'.pc[s.pc[p].parent].Embryo?
  {
    hide SerialsOk;
    hide PcOk;
    FoundParent(s, p);
    if Points(s.pc[a.p]) {
      Pointer(s, a.p);
    }
  }

  /** In every run, no exit status is collected twice, and a pid in the table is in range. */
  lemma ReapedOnce(states: seq<State>, acts: seq<Action>, k: nat)
    requires IsRun(states, acts) && k < |states|
    ensures forall m, n | 0 <= m < n < |states[k].reaped| :: states[k].reaped[m].serial != states[k].reaped[n].serial
    ensures forall i: nat | i in states[k].table ::
              PID_MIN <= i <= PID_MAX
              && forall m | 0 <= m < |states[k].reaped| :: states[k].reaped[m].serial != states[k].table[i].serial
  {
    hide Apply;
    hide Enabled;
    RunInv(states, acts, k);
  }
}
