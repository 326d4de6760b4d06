/**
 * The lock and condition variables of kern/thread/synch.c:201-376 as their callers see them: a monitor whose operations
 * are atomic.
 */
module Monitors {
  import opened Common
  import opened Locks

  /** What a caller knows of a thread. Parting still holds the lock; Waiting has given it up. */
  datatype Phase = Idle | Acquiring | Holding | Parting(cv: Option<Cv>) | Leaving | Waiting(v: Cv)

  function PhaseOf(pc: Pc): Phase {
    match pc
    case Out => Idle
    case Hold => Holding
    case Releasing(cv) => Parting(cv)
    case Cleared(cv) => if cv == None then Leaving else Waiting(cv.value)
    case Woke(cv) => if cv == None then Leaving else Waiting(cv.value)
    case CvBridged(v) => Waiting(v)
    case CvAsleep(v) => Waiting(v)
    case _ => Acquiring
  }

  type Phases = map<Thread, Phase>

  function PhasesOf(pc: map<Thread, Pc>): Phases {
    map t | t in pc :: PhaseOf(pc[t])
  }

  ghost predicate Free(ps: Phases) {
    forall t | t in ps :: ps[t] != Holding && !ps[t].Parting?
  }

  function Waiters(ps: Phases, v: Cv): set<Thread> {
    set t | t in ps && ps[t] == Waiting(v)
  }

  /**
   * The atomic monitor. The lock is only taken when nobody has it; cv_wait gives up the lock and becomes a waiter in
   * one step; a signal moves one waiter, if there is any, and a broadcast all of them, to contend for the lock again.
   * Whatever else goes on inside cannot be told.
   */
  ghost predicate Atomic(ps: Phases, a: Action, ps': Phases) {
    && a.t in ps
    && match a
       case Start(t) => ps[t] == Idle && ps' == ps[t := Acquiring]
       case Take(t) => ps[t] == Acquiring && Free(ps) && ps' == ps[t := Holding]
       case Release(t) => ps[t] == Holding && ps' == ps[t := Parting(None)]
       case CvWait(t, v) => ps[t] == Holding && ps' == ps[t := Parting(Some(v))]
       case Clear(t) =>
         ps[t].Parting? && ps' == ps[t := if ps[t].cv == None then Leaving else Waiting(ps[t].cv.value)]
       case Done(t) => if ps[t] == Leaving then ps' == ps[t := Idle] else ps[t].Waiting? && ps' == ps
       case Signal(t, v) =>
         && ps[t] == Holding
         && if Waiters(ps, v) == {} then ps' == ps else exists u :: u in Waiters(ps, v) && ps' == ps[u := Acquiring]
       case Broadcast(t, v) =>
         ps[t] == Holding && ps' == map u | u in ps :: if ps[u] == Waiting(v) then Acquiring else ps[u]
       case _ => ps' == ps
  }

  lemma PhasesSet(pc: map<Thread, Pc>, t: Thread, p: Pc)
    ensures PhasesOf(pc[t := p]) == PhasesOf(pc)[t := PhaseOf(p)]
    ensures t in pc && PhaseOf(p) == PhaseOf(pc[t]) ==> PhasesOf(pc[t := p]) == PhasesOf(pc)
  {
  }

  lemma FreeIs(s: State)
    requires OwnersOk(s) && s.holder == None
    ensures Free(PhasesOf(s.pc))
  {
    forall t | t in s.pc
      ensures !HoldsLock(s.pc[t])
    {
      Owner(s.holder, s.pc, t, HoldsLock);
    }
  }

  /** At a signal or broadcast, those who wait are those asleep on the channel. */
  lemma WaiterIs(s: State, v: Cv, t: Thread)
    requires CvsOk(s) && Known(s, v) && s.cvWchan[v] == None && t in s.pc
    ensures PhaseOf(s.pc[t]) == Waiting(v) <==> t in s.cvQueue[v]
    ensures t in s.cvQueue[v] ==> s.pc[t] == CvAsleep(v)
  {
    hide OwnedBy;
    hide NoDup;
    Owner(s.cvWchan[v], s.pc, t, q => HoldsCv(q, v));
    assert Queued(s.cvQueue[v], s.pc, CvAsleep(v));
  }

  lemma InPc(s: State, v: Cv, t: Thread)
    requires CvsOk(s) && v in s.cvQueue && t in s.cvQueue[v]
    ensures t in s.pc
  {
    hide OwnedBy;
    hide NoDup;
    assert Queued(s.cvQueue[v], s.pc, CvAsleep(v));
  }

  lemma OwnStep(s: State, a: Action)
    requires OwnersOk(s) && Enabled(s, a) && !a.Signal? && !a.Broadcast? && (!a.WakeOne? || s.lockQueue == [])
    ensures Atomic(PhasesOf(s.pc), a, PhasesOf(Apply(s, a).pc))
  {
    hide OwnersOk;
    assert PhasesOf(s.pc)[a.t] == PhaseOf(s.pc[a.t]);
    hide PhasesOf;
    hide Free;
    PhasesSet(s.pc, a.t, Goes(s, a));
    assert Apply(s, a).pc == s.pc[a.t := Goes(s, a)];
    if a.Take? {
      FreeIs(s);
    }
  }

  lemma WakeStep(s: State, a: Action)
    requires Queued(s.lockQueue, s.pc, LockAsleep) && Enabled(s, a) && a.WakeOne? && s.lockQueue != []
    ensures Atomic(PhasesOf(s.pc), a, PhasesOf(Apply(s, a).pc))
  {
    var h := s.lockQueue[0];
    assert h in s.lockQueue;
    PhasesSet(s.pc, a.t, Woke(s.pc[a.t].cv));
    PhasesSet(s.pc[a.t := Woke(s.pc[a.t].cv)], h, Want(true));
  }

  lemma ContendPhases(pc: map<Thread, Pc>, ts: seq<Thread>, ps': Phases)
    requires ps' == map t | t in pc :: if t in ts then Acquiring else PhaseOf(pc[t])
    ensures PhasesOf(Contend(pc, ts)) == ps'
  {
  }

  lemma SignalStep(s: State, t: Thread, v: Cv)
    requires CvsOk(s) && Enabled(s, Signal(t, v))
    ensures Atomic(PhasesOf(s.pc), Signal(t, v), PhasesOf(Apply(s, Signal(t, v)).pc))
  {
    hide CvsOk;
    hide Contend;
    var ps, q := PhasesOf(s.pc), s.cvQueue[v];
    if q != [] {
      var h := q[0];
      assert h in q;
      InPc(s, v, h);
      WaiterIs(s, v, h);
      ContendPhases(s.pc, [h], ps[h := Acquiring]);
      assert h in Waiters(ps, v);
    } else {
      forall u | u in s.pc
        ensures ps[u] != Waiting(v)
      {
        WaiterIs(s, v, u);
      }
      assert Waiters(ps, v) == {};
    }
  }

  lemma BroadcastStep(s: State, t: Thread, v: Cv)
    requires CvsOk(s) && Enabled(s, Broadcast(t, v))
    ensures Atomic(PhasesOf(s.pc), Broadcast(t, v), PhasesOf(Apply(s, Broadcast(t, v)).pc))
  {
    hide CvsOk;
    hide Contend;
    var ps := PhasesOf(s.pc);
    forall u | u in s.pc
      ensures ps[u] == Waiting(v) <==> u in s.cvQueue[v]
    {
      WaiterIs(s, v, u);
    }
    ContendPhases(s.pc, s.cvQueue[v], map u | u in ps :: if ps[u] == Waiting(v) then Acquiring else ps[u]);
  }

  /** Every step of every run of the code is one of the atomic monitor, or none that can be told. */
  lemma RefinesMonitor(states: seq<State>, acts: seq<Action>, k: nat)
    requires IsRun(states, acts) && k < |acts|
    ensures Atomic(PhasesOf(states[k].pc), acts[k], PhasesOf(states[k + 1].pc))
  {
    hide Apply;
    hide Enabled;
    hide Atomic;
    RunInv(states, acts, k);
    hide CvsOk;
    hide OwnersOk;
    hide FreeOk;
    hide Queued;
    var s, a := states[k], acts[k];
    if a.Signal? {
      SignalStep(s, a.t, a.v);
    } else if a.Broadcast? {
      BroadcastStep(s, a.t, a.v);
    } else if a.WakeOne? && s.lockQueue != [] {
      WakeStep(s, a);
    } else {
      OwnStep(s, a);
    }
  }

  // ---- the order of waking ----

  /** The threads that went to sleep on the lock's wait channel, in order. */
  function Slept(acts: seq<Action>): seq<Thread> {
    if acts == [] then []
    else Slept(acts[..|acts| - 1]) + if acts[|acts| - 1].Sleep? then [acts[|acts| - 1].t] else []
  }

  /** How many releases found somebody there. */
  ghost function Wakeups(states: seq<State>, acts: seq<Action>): nat
    requires |states| > |acts|
  {
    if acts == [] then 0
    else Wakeups(states, acts[..|acts| - 1])
         + if acts[|acts| - 1].WakeOne? && SomeAt(states[|acts| - 1].pc, LockAsleep) then 1 else 0
  }

  ghost predicate SomeAt(pc: map<Thread, Pc>, at: Pc) {
    exists t :: t in pc && pc[t] == at
  }

  lemma SomeQueued(q: seq<Thread>, pc: map<Thread, Pc>, at: Pc)
    requires Queued(q, pc, at)
    ensures SomeAt(pc, at) <==> q != []
  {
    hide NoDup;
    if q != [] {
      assert q[0] in q;
    }
  }

  lemma LockQueueStep(s: State, a: Action)
    requires Enabled(s, a)
    ensures Apply(s, a).lockQueue == if a.Sleep? then s.lockQueue + [a.t]
                                     else if a.WakeOne? && s.lockQueue != [] then s.lockQueue[1..]
                                     else s.lockQueue
  {
  }

  lemma RunQueued(states: seq<State>, acts: seq<Action>, k: nat)
    requires IsRun(states, acts) && k < |states|
    ensures Queued(states[k].lockQueue, states[k].pc, LockAsleep)
    ensures states[k].cvWchan.Keys == states[k].cvQueue.Keys
    ensures forall v: Cv | v in states[k].cvQueue :: Queued(states[k].cvQueue[v], states[k].pc, CvAsleep(v))
  {
    hide Apply;
    hide Enabled;
    hide Queued;
    hide OwnersOk;
    hide FreeOk;
    RunInv(states, acts, k);
  }

  /** In every run, lock_release wakes threads in the order in which they went to sleep, one each time. */
  lemma {:induction false} LockWakesInOrder(states: seq<State>, acts: seq<Action>, k: nat)
    requires IsRun(states, acts) && k < |states|
    ensures var n := Wakeups(states, acts[..k]);
            && n <= |Slept(acts[..k])| && states[k].lockQueue == Slept(acts[..k])[n..]
            && forall t :: t in Slept(acts[..k])[n..] <==> t in states[k].pc && states[k].pc[t] == LockAsleep
  {
    hide Apply;
    hide Enabled;
    hide SomeAt;
    RunQueued(states, acts, k);
    if k > 0 {
      LockWakesInOrder(states, acts, k - 1);
      RunQueued(states, acts, k - 1);
      SomeQueued(states[k - 1].lockQueue, states[k - 1].pc, LockAsleep);
      LockQueueStep(states[k - 1], acts[k - 1]);
      assert acts[..k][..k - 1] == acts[..k - 1];
    }
  }

  /** The threads that went to sleep on condition variable v, in order. */
  ghost function SleptOn(states: seq<State>, acts: seq<Action>, v: Cv): seq<Thread>
    requires |states| > |acts|
  {
    if acts == [] then []
    else
      var n := |acts| - 1;
      SleptOn(states, acts[..n], v) + if SleepsOn(states[n], acts[n], v) then [acts[n].t] else []
  }

  predicate SleepsOn(s: State, a: Action, v: Cv) {
    a.CvSleep? && a.t in s.pc && s.pc[a.t] == CvBridged(v)
  }

  /** How many of them signals and broadcasts have woken: a signal one, if there is any, a broadcast all there are. */
  ghost function WokenOn(states: seq<State>, acts: seq<Action>, v: Cv): nat
    requires |states| > |acts|
  {
    if acts == [] then 0
    else
      var n := |acts| - 1;
      if acts[n].Broadcast? && acts[n].v == v then |SleptOn(states, acts[..n], v)|
      else WokenOn(states, acts[..n], v)
           + if acts[n].Signal? && acts[n].v == v && SomeAt(states[n].pc, CvAsleep(v)) then 1 else 0
  }

  lemma CvQueueStep(s: State, a: Action, v: Cv)
    requires Enabled(s, a) && v in s.cvQueue
    ensures v in Apply(s, a).cvQueue
    ensures Apply(s, a).cvQueue[v] ==
              if SleepsOn(s, a, v) then s.cvQueue[v] + [a.t]
              else if a.Broadcast? && a.v == v then []
              else if a.Signal? && a.v == v && s.cvQueue[v] != [] then s.cvQueue[v][1..]
              else s.cvQueue[v]
  {
  }

  lemma OneMore(states: seq<State>, acts: seq<Action>, k: nat, v: Cv)
    requires 0 < k <= |acts| < |states|
    ensures SleptOn(states, acts[..k], v) ==
              SleptOn(states, acts[..k - 1], v)
              + if SleepsOn(states[k - 1], acts[k - 1], v) then [acts[k - 1].t] else []
    ensures WokenOn(states, acts[..k], v) ==
              if acts[k - 1].Broadcast? && acts[k - 1].v == v then |SleptOn(states, acts[..k - 1], v)|
              else WokenOn(states, acts[..k - 1], v)
                   + if acts[k - 1].Signal? && acts[k - 1].v == v && SomeAt(states[k - 1].pc, CvAsleep(v)) then 1 else 0
  {
    hide SomeAt;
    hide SleepsOn;
    assert acts[..k][..k - 1] == acts[..k - 1];
  }

  /** A queue that holds all but the first n of those who ever joined it goes on doing so. */
  lemma StillTheRest(q: seq<Thread>, all: seq<Thread>, n: nat, q': seq<Thread>, all': seq<Thread>, n': nat)
    requires n <= |all| && q == all[n..]
    requires || (exists t :: all' == all + [t] && q' == q + [t] && n' == n)
             || (all' == all && q' == [] && n' == |all|)
             || (all' == all && q != [] && q' == q[1..] && n' == n + 1)
             || (all' == all && q' == q && n' == n)
    ensures n' <= |all'| && q' == all'[n'..]
  {
  }

  lemma {:induction false} CvOrder(states: seq<State>, acts: seq<Action>, k: nat, v: Cv)
    requires IsRun(states, acts) && k < |states| && v in states[0].cvQueue
    ensures var n := WokenOn(states, acts[..k], v);
            && v in states[k].cvQueue && n <= |SleptOn(states, acts[..k], v)|
            && states[k].cvQueue[v] == SleptOn(states, acts[..k], v)[n..]
  {
    hide Apply;
    hide Enabled;
    hide SomeAt;
    hide Queued;
    if k == 0 {
      assert v in states[0].cvWchan;
    } else {
      hide SleptOn;
      hide WokenOn;
      CvOrder(states, acts, k - 1, v);
      RunQueued(states, acts, k - 1);
      SomeQueued(states[k - 1].cvQueue[v], states[k - 1].pc, CvAsleep(v));
      CvQueueStep(states[k - 1], acts[k - 1], v);
      OneMore(states, acts, k, v);
      hide IsRun;
      StillTheRest(states[k - 1].cvQueue[v], SleptOn(states, acts[..k - 1], v), WokenOn(states, acts[..k - 1], v),
                   states[k].cvQueue[v], SleptOn(states, acts[..k], v), WokenOn(states, acts[..k], v));
    }
  }

  /** In every run, threads are woken off a condition variable in the order in which they went to sleep on it. */
  lemma CvWakesInOrder(states: seq<State>, acts: seq<Action>, k: nat, v: Cv)
    requires IsRun(states, acts) && k < |states| && v in states[0].cvQueue
    ensures var n := WokenOn(states, acts[..k], v);
            && n <= |SleptOn(states, acts[..k], v)|
            && forall t :: t in SleptOn(states, acts[..k], v)[n..] <==>
                             t in states[k].pc && states[k].pc[t] == CvAsleep(v)
  {
    hide IsRun;
    hide SleptOn;
    hide WokenOn;
    CvOrder(states, acts, k, v);
    RunQueued(states, acts, k);
    assert Queued(states[k].cvQueue[v], states[k].pc, CvAsleep(v));
  }

  /** A release took t off the lock's wait channel at step j, and t has not got the lock since. */
  ghost predicate WokenAt(states: seq<State>, acts: seq<Action>, j: nat, k: nat, t: Thread)
    requires IsRun(states, acts) && k < |states|
  {
    && j < k && acts[j].WakeOne? && t in states[j].pc && states[j].pc[t] == LockAsleep
    && t in states[j + 1].pc && states[j + 1].pc[t] != LockAsleep
    && forall m | j <= m < k :: acts[m] != Take(t)
  }

  /** The contenders that a free lock counts on are threads that a release woke. */
  lemma {:induction false} ContenderWasWoken(states: seq<State>, acts: seq<Action>, k: nat, t: Thread)
    returns (j: nat)
    requires IsRun(states, acts) && k < |states| && t in states[k].pc && Contends(states[k].pc[t])
    ensures WokenAt(states, acts, j, k, t)
  {
    hide Apply;
    hide Enabled;
    if k > 0 {
      var s, a := states[k - 1], acts[k - 1];
      RunQueued(states, acts, k - 1);
      BecomesContender(s, a, t);
      if Contends(s.pc[t]) {
        j := ContenderWasWoken(states, acts, k - 1, t);
      } else {
        j := k - 1;
      }
    }
  }

  lemma BecomesContender(s: State, a: Action, t: Thread)
    requires Queued(s.lockQueue, s.pc, LockAsleep) && Enabled(s, a) && t in Apply(s, a).pc
    requires Contends(Apply(s, a).pc[t])
    ensures t in s.pc && a != Take(t) && (Contends(s.pc[t]) || (a.WakeOne? && s.pc[t] == LockAsleep))
  {
    hide NoDup;
    if s.lockQueue != [] {
      assert s.lockQueue[0] in s.lockQueue;
    }
  }
}
