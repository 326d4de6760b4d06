/** What _exit and waitpid tell each other (kern/syscall/proc_syscalls.c:26-185): exit statuses, and who gets them. */
module ProcessStatus {
  import opened ProcTable
  import opened Processes

  /** Some process called _exit before state k: the one with this serial number, with a code of that status. */
  ghost predicate ExitedWith(states: seq<State>, acts: seq<Action>, k: nat, serial: nat, status: int)
    requires IsRun(states, acts) && k < |states|
  {
    exists j: nat :: j < k && ExitsAt(states[j], acts[j], serial, status)
  }

  predicate ExitsAt(s: State, a: Action, serial: nat, status: int) {
    a.Exit? && a.p in s.table && s.table[a.p].serial == serial && status == MkWaitExit(a.code)
  }

  /** Whoever is exiting, has exited, or was reaped, did so with the code that is on record. */
  ghost predicate RecordsOk(states: seq<State>, acts: seq<Action>, k: nat)
    requires IsRun(states, acts) && k < |states|
  {
    var s := states[k];
    && (forall p: nat | p in s.table && s.table[p].exited ::
          ExitedWith(states, acts, k, s.table[p].serial, s.table[p].code))
    && (forall p: nat | p in s.table && p in s.pc && s.pc[p].Exiting? ::
          ExitedWith(states, acts, k, s.table[p].serial, MkWaitExit(s.pc[p].code)))
    && (forall i | 0 <= i < |s.reaped| :: ExitedWith(states, acts, k, s.reaped[i].serial, s.reaped[i].status))
  }

  lemma Later(states: seq<State>, acts: seq<Action>, k: nat, serial: nat, status: int)
    requires IsRun(states, acts) && k + 1 < |states|
    ensures ExitedWith(states, acts, k, serial, status) || ExitsAt(states[k], acts[k], serial, status) ==>
              ExitedWith(states, acts, k + 1, serial, status)
  {
    hide ExitsAt;
    hide IsRun;
  }

  /** What a step leaves of a table entry: an exit fills in the status, and a new process takes a free slot. */
  lemma TableStep(s: State, a: Action, p: nat)
    requires Enabled(s, a) && p in Apply(s, a).table
    ensures var e := Apply(s, a).table[p];
            if p in s.table then
              && e.serial == s.table[p].serial
              && (if a == Finish(p) then e.exited && e.code == MkWaitExit(s.pc[p].code)
                  else e.exited == s.table[p].exited && e.code == s.table[p].code)
            else e == Proc(s.next, -1, false, 0)
  {
    hide MkWaitExit;
    hide Signal;
  }

  /** And of what a process is doing: only _exit gets it to exiting, and nothing from there back to life. */
  lemma PcStep(s: State, a: Action, p: nat)
    requires Inv(s) && Enabled(s, a) && p in Apply(s, a).pc
    ensures var e := Apply(s, a).pc[p];
            && (e.Exiting? ==> p in s.pc && (e == s.pc[p] || (a == Exit(p, e.code) && p in s.table)))
            && (p in s.pc && (s.pc[p].Exiting? || s.pc[p].Zombie?) && p in s.table && !Takes(a, p) ==>
                  e.Exiting? || e.Zombie?)
            && (a.Exit? && a.p == p ==> e.Exiting?)
  {
    hide MkWaitExit;
    hide SerialsOk;
    hide PcOk;
    if a.ForkStart? {
      Pointer(s, a.p);
    }
  }

  /** The step is about p as a process being made. */
  predicate Takes(a: Action, p: nat) {
    a == Spawn(p) || (a.ForkCreate? && a.c == p)
  }

  lemma ReapStep(s: State, a: Action)
    requires Enabled(s, a)
    ensures a.Reap? ==> a.p in s.pc && s.pc[a.p].WaitAwake? && s.pc[a.p].child in s.table
    ensures if a.Reap? then var e := s.table[s.pc[a.p].child];
                            e.exited && Apply(s, a).reaped == s.reaped + [Reaping(e.serial, e.code)]
            else Apply(s, a).reaped == s.reaped
    ensures Apply(s, a).next >= s.next
  {
  }

  lemma RecordStep(s: State, a: Action, p: nat)
    requires Inv(s) && Enabled(s, a) && p in Apply(s, a).table
    ensures var s' := Apply(s, a);
            && (s'.table[p].exited ==>
                  && p in s.table && s'.table[p].serial == s.table[p].serial
                  && ((s.table[p].exited && s'.table[p].code == s.table[p].code)
                      || (p in s.pc && s.pc[p].Exiting? && s'.table[p].code == MkWaitExit(s.pc[p].code))))
            && (p in s'.pc && s'.pc[p].Exiting? ==>
                  || (p in s.table && p in s.pc && s'.pc[p] == s.pc[p] && s'.table[p].serial == s.table[p].serial)
                  || ExitsAt(s, a, s'.table[p].serial, MkWaitExit(s'.pc[p].code)))
  {
    hide SerialsOk;
    hide PcsOk;
    hide Apply;
    hide MkWaitExit;
    TableStep(s, a, p);
    if p in Apply(s, a).pc {
      PcStep(s, a, p);
    }
  }

  lemma {:induction false} RunRecords(states: seq<State>, acts: seq<Action>, k: nat)
    requires IsRun(states, acts) && k < |states|
    ensures RecordsOk(states, acts, k)
  {
    hide Apply;
    hide Enabled;
    hide Inv;
    hide ExitedWith;
    hide ExitsAt;
    hide MkWaitExit;
    if k > 0 {
      RunRecords(states, acts, k - 1);
      RunInv(states, acts, k - 1);
      var s, a, s' := states[k - 1], acts[k - 1], states[k];
      ReapStep(s, a);
      forall p: nat | p in s'.table
        ensures s'.table[p].exited ==>
                  && p in s.table && s'.table[p].serial == s.table[p].serial
                  && ((s.table[p].exited && s'.table[p].code == s.table[p].code)
                      || (p in s.pc && s.pc[p].Exiting? && s'.table[p].code == MkWaitExit(s.pc[p].code)))
        ensures p in s'.pc && s'.pc[p].Exiting? ==>
                  || (p in s.table && p in s.pc && s'.pc[p] == s.pc[p] && s'.table[p].serial == s.table[p].serial)
                  || ExitsAt(s, a, s'.table[p].serial, MkWaitExit(s'.pc[p].code))
      {
        RecordStep(s, a, p);
      }
      forall serial, status
        ensures ExitedWith(states, acts, k - 1, serial, status) || ExitsAt(s, a, serial, status) ==>
                  ExitedWith(states, acts, k, serial, status)
      {
        Later(states, acts, k - 1, serial, status);
      }
      forall i | 0 <= i < |s'.reaped|
        ensures ExitedWith(states, acts, k, s'.reaped[i].serial, s'.reaped[i].status)
      {
        if i < |s.reaped| {
          assert s'.reaped[i] == s.reaped[i];
        } else {
          var c := s.pc[a.p].child;
          assert ExitedWith(states, acts, k - 1, s.table[c].serial, s.table[c].code);
        }
      }
    }
  }

  /**
   * In every run, each status that waitpid handed out is that of an earlier _exit, by the very process it is about,
   * with the code that process gave.
   */
  lemma StatusIsExitCode(states: seq<State>, acts: seq<Action>, k: nat, i: nat) returns (j: nat)
    requires IsRun(states, acts) && k < |states| && i < |states[k].reaped|
    ensures j < k && acts[j].Exit? && acts[j].p in states[j].table
    ensures states[j].table[acts[j].p].serial == states[k].reaped[i].serial
    ensures WIfExited(states[k].reaped[i].status)
    ensures -0x2000_0000 <= acts[j].code < 0x2000_0000 ==> WExitStatus(states[k].reaped[i].status) == acts[j].code
  {
    hide Apply;
    hide Enabled;
    RunRecords(states, acts, k);
    j :| j < k && ExitsAt(states[j], acts[j], states[k].reaped[i].serial, states[k].reaped[i].status);
  }

  /** And waitpid hands it to the parent that waited for that process. */
  lemma ReapsOwnChild(states: seq<State>, acts: seq<Action>, k: nat, p: nat)
    requires IsRun(states, acts) && k < |acts| && acts[k] == Reap(p)
    ensures var s, s' := states[k], states[k + 1];
            && p in s.pc && s.pc[p].WaitAwake? && s.pc[p].child in s.table && s.table[s.pc[p].child].parent == p
            && |s'.reaped| == |s.reaped| + 1 && s.reaped <= s'.reaped
            && s'.reaped[|s.reaped|].serial == s.pc[p].serial && s.pc[p].child !in s'.table
            && p in s'.pc && s'.pc[p] == Running
  {
    RunInv(states, acts, k);
    assert PcOk(states[k], p);
  }

  /** A process, by serial number, is in the table and running, or making or awaiting a child. */
  ghost predicate Lives(s: State, serial: nat) {
    exists p: nat :: p in s.table && p in s.pc && s.table[p].serial == serial && !s.pc[p].Exiting? && !s.pc[p].Zombie?
  }

  lemma LivesStep(s: State, a: Action, serial: nat)
    requires Inv(s) && Enabled(s, a) && serial < s.next && Lives(Apply(s, a), serial)
    ensures Lives(s, serial) && !(a.Exit? && a.p in s.table && s.table[a.p].serial == serial)
  {
    hide PcsOk;
    var s' := Apply(s, a);
    var p: nat :|
      p in s'.table && p in s'.pc && s'.table[p].serial == serial && !s'.pc[p].Exiting? && !s'.pc[p].Zombie?;
    hide Apply;
    TableStep(s, a, p);
    PcStep(s, a, p);
    TakesFree(s, a, p);
  }

  lemma TakesFree(s: State, a: Action, p: nat)
    requires Enabled(s, a) && p in s.table
    ensures !Takes(a, p)
  {
  }

  /** In every run, _exit is the end: no process that called it ever lives again, under whatever pid. */
  lemma {:induction false} ExitIsFinal(states: seq<State>, acts: seq<Action>, j: nat, k: nat)
    requires IsRun(states, acts) && j < k < |states| && acts[j].Exit?
    ensures acts[j].p in states[j].table
    ensures !Lives(states[k], states[j].table[acts[j].p].serial) && states[j].table[acts[j].p].serial < states[k].next
    decreases k
  {
    hide Apply;
    hide Lives;
    hide Inv;
    RunInv(states, acts, j);
    RunInv(states, acts, k - 1);
    ReapStep(states[k - 1], acts[k - 1]);
    var serial := states[j].table[acts[j].p].serial;
    SerialBelow(states[j], acts[j].p);
    if k > j + 1 {
      ExitIsFinal(states, acts, j, k - 1);
    }
    if Lives(states[k], serial) {
      LivesStep(states[k - 1], acts[k - 1], serial);
    }
  }

  lemma SerialBelow(s: State, p: nat)
    requires Inv(s) && p in s.table
    ensures s.table[p].serial < s.next
  {
    hide PcsOk;
  }

  /** A zombie goes only when its parent collects its status, or exits. */
  lemma ZombieGoes(states: seq<State>, acts: seq<Action>, k: nat, z: nat)
    requires IsRun(states, acts) && k < |acts| && z in states[k].table && states[k].table[z].exited
    ensures z !in states[k + 1].table ==>
              (acts[k].Reap? || acts[k].Exit? || acts[k].Finish?) && acts[k].p == states[k].table[z].parent
  {
    hide Inv;
    hide Apply;
    RunInv(states, acts, k);
    ZombieStays(states[k], acts[k], z);
  }

  lemma ZombieStays(s: State, a: Action, z: nat)
    requires Inv(s) && Enabled(s, a) && z in s.table && s.table[z].exited
    ensures z !in Apply(s, a).table ==> (a.Reap? || a.Exit? || a.Finish?) && a.p == s.table[z].parent
  {
    hide SerialsOk;
    hide PcOk;
    if (a.ForkFail? || a.Reap?) && a.p in s.pc {
      Pointer(s, a.p);
    }
  }
}
