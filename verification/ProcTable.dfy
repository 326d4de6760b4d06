/** The process table (kern/proc/proc.c:77-86, 130-190, 436-494). */
module ProcTable {
  const PID_MIN := 2
  const PID_MAX := 32767
  const MAX_PROC := 32768
  const PROC_LIMIT := 32766   // PID_MAX - PID_MIN + 1

  /** The fields of struct proc that the table code uses; serial tells processes apart across reuse of a pid. */
  datatype Proc = Proc(serial: nat, parent: int, exited: bool, code: int)

  datatype Slot = Null | Used(proc: Proc)

  type Table = map<nat, Proc>

  /** The table as a map from pid to process. */
  function Procs(list: seq<Slot>): Table {
    map i | 0 <= i < |list| && list[i].Used? :: list[i].proc
  }

  /** No pid from PID_MIN up to i is free, and i is. */
  predicate IsLeastFree(t: Table, i: nat) {
    PID_MIN <= i && i !in t && forall j: nat | PID_MIN <= j < i :: j in t
  }

  /** An exited child of pid. */
  predicate IsDeadChild(p: Proc, pid: nat) {
    p.parent == pid && p.exited
  }

  /** The table without the exited children of pid. */
  function WithoutDeadChildren(t: Table, pid: nat): Table {
    map i | i in t && !IsDeadChild(t[i], pid) :: t[i]
  }

  lemma ProcsSet(list: seq<Slot>, i: nat, p: Proc)
    requires i < |list|
    ensures Procs(list[i := Used(p)]) == Procs(list)[i := p]
  {
  }

  lemma ProcsClear(list: seq<Slot>, i: nat)
    requires i < |list|
    ensures Procs(list[i := Null]) == Procs(list) - {i}
  {
  }

  /** A table whose first free pid is beyond PID_MAX is full. */
  lemma {:induction false} CountUpTo(t: Table, n: nat)
    requires n >= PID_MIN && forall j: nat | PID_MIN <= j < n :: j in t
    ensures |t| >= n - PID_MIN
  {
    if n > PID_MIN {
      var t' := t - {n - 1};
      CountUpTo(t', n - 1);
      assert t.Keys == t'.Keys + {n - 1};
    }
  }

  lemma LeastFreeInRange(t: Table, i: nat)
    requires IsLeastFree(t, i) && |t| < PROC_LIMIT
    ensures i <= PID_MAX
  {
    CountUpTo(t, i);
  }

  class ProcList {
    var list: seq<Slot>        // active_proc_list
    var largest: int           // current_largest_pid
    var count: nat             // proc_count
    var signals: nat           // how often no_proc_sem was signalled
    ghost var serials: nat     // processes created so far

    /** Pids in use lie within the range searched, and the count is the number of them. */
    ghost predicate Valid()
      reads this
    {
      && |list| == MAX_PROC && 1 <= largest <= PID_MAX && count == |Procs(list)| <= PROC_LIMIT
      && (forall i: nat | i in Procs(list) :: PID_MIN <= i <= largest)
      && forall i: nat | i in Procs(list) :: Procs(list)[i].serial < serials
    }

    /** proc_bootstrap. */
    constructor ()
      ensures Valid() && Procs(list) == map[] && count == 0 && signals == 0 && serials == 0
    {
      list, largest, count, signals, serials := seq(MAX_PROC, _ => Null), 2, 0, 0, 0;
    }

    /** add_to_active_proc_list: the new process gets the least free pid. */
    method Add(p: Proc) returns (pid: nat)
      requires Valid() && count < PROC_LIMIT && p.serial == serials
      modifies this
      ensures Valid() && IsLeastFree(old(Procs(list)), pid) && PID_MIN <= pid <= PID_MAX
      ensures Procs(list) == old(Procs(list))[pid := p] && count == old(count) + 1
      ensures signals == old(signals) && serials == old(serials) + 1
    {
      for i := 2 to largest + 1
        invariant forall j | 2 <= j < i :: list[j].Used?
        invariant unchanged(this)
      {
        if list[i] == Null {
          Grow(i, p);
          return i;
        }
      }
      Outside(largest + 1);
      LeastFreeInRange(Procs(list), largest + 1);
      largest := largest + 1;
      Grow(largest, p);
      return largest;
    }

    lemma Outside(i: int)
      requires Valid() && i > largest && forall j | 2 <= j <= largest :: list[j].Used?
      ensures i == largest + 1 ==> IsLeastFree(Procs(list), i)
    {
    }

    /** Enter process p under the free pid and count it. */
    method Grow(pid: nat, p: Proc)
      requires |list| == MAX_PROC && PID_MIN <= pid <= largest <= PID_MAX && list[pid] == Null
      modifies `list, `count, `serials
      ensures |list| == MAX_PROC && Procs(list) == old(Procs(list))[pid := p]
      ensures count == old(count) + 1 && serials == old(serials) + 1
    {
      ProcsSet(list, pid, p);
      list := list[pid := Used(p)];
      count, serials := count + 1, serials + 1;
    }

    /** proc_destroy, as far as the table goes; the menu thread is signalled when the last process goes. */
    method Destroy(pid: nat)
      requires Valid() && pid in Procs(list)
      modifies this
      ensures Valid() && Procs(list) == old(Procs(list)) - {pid} && count == old(count) - 1
      ensures largest == old(largest) - (if pid == old(largest) then 1 else 0)
      ensures signals == old(signals) + (if count == 0 then 1 else 0) && serials == old(serials)
    {
      ProcsClear(list, pid);
      ghost var t := Procs(list);
      assert t.Keys == (t - {pid}).Keys + {pid};
      list := list[pid := Null];
      if pid == largest {
        largest := largest - 1;
      }
      assert count > 0;
      count := count - 1;
      if count == 0 {
        signals := signals + 1;
      }
    }

    /** exited_children_cleanup: the bound of the loop moves down as processes at the top are destroyed. */
    method Cleanup(pid: nat)
      requires Valid()
      modifies this
      ensures Valid() && Procs(list) == WithoutDeadChildren(old(Procs(list)), pid) && serials == old(serials)
      ensures signals == old(signals) + (if Procs(list) == map[] && old(Procs(list)) != map[] then 1 else 0)
    {
      ghost var t := Procs(list);
      var i: nat := 2;
      while i <= largest
        invariant Valid() && serials == old(serials) && 2 <= i
        invariant signals == old(signals) + (if Procs(list) == map[] && t != map[] then 1 else 0)
        invariant forall j: nat :: j in Procs(list) <==> j in t && !(j < i && IsDeadChild(t[j], pid))
        invariant forall j: nat | j in Procs(list) :: Procs(list)[j] == t[j]
        decreases MAX_PROC - i
      {
        if list[i] != Null {
          assert i in Procs(list) && Procs(list)[i] == list[i].proc;
          if list[i].proc.parent == pid && list[i].proc.exited {
            Destroy(i);
          }
        }
        i := i + 1;
      }
    }
  }
}
