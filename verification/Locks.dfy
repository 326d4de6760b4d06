/**
 * Locks and condition variables (kern/thread/synch.c:201-376): one lock with its condition variables, as steps
 * between spinlock operations, for any number of threads.
 */
module Locks {
  import opened Common

  type Thread = nat
  type Cv = nat

  /** Where a thread is. Releasing carries the condition variable whose cv_wait is releasing the lock, if any. */
  datatype Pc =
    | Out
    | Want(woken: bool)         // lock_acquire, before taking lk_lock; woken off the lock's wait channel or not
    | Test(woken: bool)         // lock_acquire, holding lk_lock
    | Bridging                  // lock_acquire, holding lk_lock and the lock's wait channel
    | Bridged                   // lock_acquire, holding the wait channel only
    | LockAsleep
    | Hold                      // holding the lock
    | Releasing(cv: Option<Cv>) // lock_release called, before taking lk_lock
    | Cleared(cv: Option<Cv>)   // holding lk_lock, holder cleared, nobody woken yet
    | Woke(cv: Option<Cv>)      // holding lk_lock, wakeup done
    | CvBridged(v: Cv)          // cv_wait, lock released, holding the condition variable's wait channel
    | CvAsleep(v: Cv)

  datatype State = State(
    holder: Option<Thread>,            // lk_holder
    lockSpin: Option<Thread>,          // who holds lk_lock
    lockWchan: Option<Thread>,         // who holds the lock of lk_wchan
    lockQueue: seq<Thread>,            // lk_wchan
    cvWchan: map<Cv, Option<Thread>>,  // who holds the lock of each cv_wchan
    cvQueue: map<Cv, seq<Thread>>,     // each cv_wchan
    pc: map<Thread, Pc>)

  datatype Action =
    | Start(t: Thread) | Spin(t: Thread) | Take(t: Thread) | Bridge(t: Thread) | Unspin(t: Thread) | Sleep(t: Thread)
    | Release(t: Thread) | Clear(t: Thread) | WakeOne(t: Thread) | Done(t: Thread)
    | CvWait(t: Thread, v: Cv) | CvSleep(t: Thread) | Signal(t: Thread, v: Cv) | Broadcast(t: Thread, v: Cv)

  predicate Known(s: State, v: Cv) {
    v in s.cvWchan && v in s.cvQueue
  }

  predicate Enabled(s: State, a: Action) {
    && a.t in s.pc
    && match a
       case Start(t) => s.pc[t] == Out
       case Spin(t) => s.pc[t].Want? && s.lockSpin == None
       case Take(t) => s.pc[t].Test? && s.holder == None
       case Bridge(t) => s.pc[t].Test? && s.holder != None && s.lockWchan == None
       case Unspin(t) => s.pc[t] == Bridging
       case Sleep(t) => s.pc[t] == Bridged
       case Release(t) => s.pc[t] == Hold
       case Clear(t) => s.pc[t].Releasing? && s.lockSpin == None
       case WakeOne(t) => s.pc[t].Cleared? && s.lockWchan == None
       case Done(t) => s.pc[t].Woke?
       case CvWait(t, v) => s.pc[t] == Hold && Known(s, v) && s.cvWchan[v] == None
       case CvSleep(t) => s.pc[t].CvBridged? && Known(s, s.pc[t].v)
       case Signal(t, v) => s.pc[t] == Hold && Known(s, v) && s.cvWchan[v] == None
       case Broadcast(t, v) => s.pc[t] == Hold && Known(s, v) && s.cvWchan[v] == None
  }

  /** Threads ts, woken off a condition variable, go on to lock_acquire. */
  function Contend(pc: map<Thread, Pc>, ts: seq<Thread>): map<Thread, Pc> {
    map t | t in pc :: if t in ts then Want(false) else pc[t]
  }

  function Apply(s: State, a: Action): State
    requires Enabled(s, a)
  {
    match a
    case Start(t) => s.(pc := s.pc[t := Want(false)])
    case Spin(t) => s.(pc := s.pc[t := Test(s.pc[t].woken)], lockSpin := Some(t))
    case Take(t) => s.(pc := s.pc[t := Hold], lockSpin := None, holder := Some(t))
    case Bridge(t) => s.(pc := s.pc[t := Bridging], lockWchan := Some(t))
    case Unspin(t) => s.(pc := s.pc[t := Bridged], lockSpin := None)
    case Sleep(t) => s.(pc := s.pc[t := LockAsleep], lockWchan := None, lockQueue := s.lockQueue + [t])
    case Release(t) => s.(pc := s.pc[t := Releasing(None)])
    case Clear(t) => s.(pc := s.pc[t := Cleared(s.pc[t].cv)], lockSpin := Some(t), holder := None)
    case WakeOne(t) =>
      if s.lockQueue == [] then s.(pc := s.pc[t := Woke(s.pc[t].cv)])
      else s.(pc := s.pc[t := Woke(s.pc[t].cv)][s.lockQueue[0] := Want(true)], lockQueue := s.lockQueue[1..])
    case Done(t) =>
      s.(pc := s.pc[t := if s.pc[t].cv == None then Out else CvBridged(s.pc[t].cv.value)], lockSpin := None)
    case CvWait(t, v) => s.(pc := s.pc[t := Releasing(Some(v))], cvWchan := s.cvWchan[v := Some(t)])
    case CvSleep(t) =>
      var v := s.pc[t].v;
      s.(pc := s.pc[t := CvAsleep(v)], cvWchan := s.cvWchan[v := None], cvQueue := s.cvQueue[v := s.cvQueue[v] + [t]])
    case Signal(t, v) =>
      if s.cvQueue[v] == [] then s
      else s.(pc := Contend(s.pc, [s.cvQueue[v][0]]), cvQueue := s.cvQueue[v := s.cvQueue[v][1..]])
    case Broadcast(t, v) =>
      s.(pc := Contend(s.pc, s.cvQueue[v]), cvQueue := s.cvQueue[v := []])
  }

  predicate HoldsSpin(pc: Pc) {
    pc.Test? || pc == Bridging || pc.Cleared? || pc.Woke?
  }

  predicate HoldsWchan(pc: Pc) {
    pc == Bridging || pc == Bridged
  }

  predicate HoldsLock(pc: Pc) {
    pc == Hold || pc.Releasing?
  }

  predicate HoldsCv(pc: Pc, v: Cv) {
    ((pc.Releasing? || pc.Cleared? || pc.Woke?) && pc.cv == Some(v)) || pc == CvBridged(v)
  }

  /** A spinlock or lock is held by exactly the thread whose place in the code says so. */
  ghost predicate OwnedBy(owner: Option<Thread>, pc: map<Thread, Pc>, holds: Pc -> bool) {
    forall t: Thread :: owner == Some(t) <==> t in pc && holds(pc[t])
  }

  /** A wait channel holds exactly the threads asleep on it. */
  ghost predicate Queued(q: seq<Thread>, pc: map<Thread, Pc>, at: Pc) {
    NoDup(q) && forall t: Thread :: t in q <==> t in pc && pc[t] == at
  }

  ghost predicate OwnersOk(s: State) {
    && OwnedBy(s.lockSpin, s.pc, HoldsSpin) && OwnedBy(s.lockWchan, s.pc, HoldsWchan)
    && OwnedBy(s.holder, s.pc, HoldsLock)
  }

  ghost predicate CvsOk(s: State) {
    && s.cvWchan.Keys == s.cvQueue.Keys
    && (forall v: Cv | v in s.cvWchan :: OwnedBy(s.cvWchan[v], s.pc, p => HoldsCv(p, v)))
    && (forall v: Cv | v in s.cvQueue :: Queued(s.cvQueue[v], s.pc, CvAsleep(v)))
    && (forall t: Thread, v: Cv | t in s.pc && (HoldsCv(s.pc[t], v) || s.pc[t] == CvAsleep(v)) :: v in s.cvQueue)
  }

  /** A woken contender: off the lock's wait channel, and not yet done testing the holder. */
  predicate Contends(pc: Pc) {
    pc == Want(true) || pc == Test(true)
  }

  ghost predicate HasContender(s: State) {
    exists t :: t in s.pc && (Contends(s.pc[t]) || s.pc[t].Cleared?)
  }

  /** A free lock with a thread asleep, or going to sleep, has a woken contender or a release still to wake one. */
  ghost predicate FreeOk(s: State) {
    s.holder == None && (s.lockQueue != [] || s.lockWchan.Some?) ==> HasContender(s)
  }

  ghost predicate Inv(s: State) {
    OwnersOk(s) && CvsOk(s) && Queued(s.lockQueue, s.pc, LockAsleep) && FreeOk(s)
  }

  ghost predicate Init(s: State) {
    && s.holder == None && s.lockSpin == None && s.lockWchan == None && s.lockQueue == []
    && s.cvWchan.Keys == s.cvQueue.Keys && (forall v | v in s.cvWchan :: s.cvWchan[v] == None && s.cvQueue[v] == [])
    && forall t | t in s.pc :: s.pc[t] == Out
  }

  // How owners and wait channels follow one thread's move, and a wakeup of several.

  lemma OwnedSet(owner: Option<Thread>, owner': Option<Thread>, pc: map<Thread, Pc>, t: Thread, p: Pc,
                 holds: Pc -> bool)
    requires OwnedBy(owner, pc, holds) && t in pc && (holds(p) ==> owner == None || owner == Some(t))
    requires owner' == if holds(p) then Some(t) else if owner == Some(t) then None else owner
    ensures OwnedBy(owner', pc[t := p], holds)
  {
  }

  lemma OwnedContend(owner: Option<Thread>, pc: map<Thread, Pc>, ts: seq<Thread>, holds: Pc -> bool)
    requires OwnedBy(owner, pc, holds) && !holds(Want(false)) && forall t | t in ts :: t in pc && !holds(pc[t])
    ensures OwnedBy(owner, Contend(pc, ts), holds)
  {
  }

  lemma QueuedSet(q: seq<Thread>, pc: map<Thread, Pc>, t: Thread, p: Pc, at: Pc)
    requires Queued(q, pc, at) && t in pc && pc[t] != at && p != at
    ensures Queued(q, pc[t := p], at)
  {
  }

  lemma QueuedPush(q: seq<Thread>, pc: map<Thread, Pc>, t: Thread, at: Pc)
    requires Queued(q, pc, at) && t in pc && pc[t] != at
    ensures Queued(q + [t], pc[t := at], at)
  {
    assert t !in q;
  }

  lemma QueuedPop(q: seq<Thread>, pc: map<Thread, Pc>, p: Pc, at: Pc)
    requires Queued(q, pc, at) && q != [] && p != at
    ensures q[0] in pc && pc[q[0]] == at && Queued(q[1..], pc[q[0] := p], at)
  {
    assert q[0] in q;
    assert forall t :: t in q[1..] <==> t in q && t != q[0];
  }

  lemma QueuedContend(q: seq<Thread>, pc: map<Thread, Pc>, ts: seq<Thread>, at: Pc)
    requires Queued(q, pc, at) && at != Want(false) && forall t | t in ts :: t in pc && pc[t] != at
    ensures Queued(q, Contend(pc, ts), at)
  {
  }

  lemma QueuedLeave(q: seq<Thread>, pc: map<Thread, Pc>, n: nat, at: Pc)
    requires Queued(q, pc, at) && n <= |q| && at != Want(false)
    ensures Queued(q[n..], Contend(pc, q[..n]), at)
  {
    assert q == q[..n] + q[n..];
    forall t: Thread
      ensures t in q[n..] <==> t in q && t !in q[..n]
    {
      assert t in q <==> t in q[..n] || t in q[n..];
    }
  }

  /** The place a thread moves to by an action of its own, other than waking others. */
  function Goes(s: State, a: Action): Pc
    requires Enabled(s, a)
  {
    match a
    case Start(t) => Want(false)
    case Spin(t) => Test(s.pc[t].woken)
    case Take(t) => Hold
    case Bridge(t) => Bridging
    case Unspin(t) => Bridged
    case Sleep(t) => LockAsleep
    case Release(t) => Releasing(None)
    case Clear(t) => Cleared(s.pc[t].cv)
    case WakeOne(t) => Woke(s.pc[t].cv)
    case Done(t) => if s.pc[t].cv == None then Out else CvBridged(s.pc[t].cv.value)
    case CvWait(t, v) => Releasing(Some(v))
    case CvSleep(t) => CvAsleep(s.pc[t].v)
    case Signal(t, _) => Hold
    case Broadcast(t, _) => Hold
  }

  lemma OwnStepOwners(s: State, a: Action, s': State)
    requires OwnersOk(s) && Enabled(s, a) && s' == Apply(s, a) && s'.pc == s.pc[a.t := Goes(s, a)]
    ensures OwnersOk(s')
  {
    hide OwnedBy;
    var t, p := a.t, Goes(s, a);
    Owner(s.lockSpin, s.pc, t, HoldsSpin);
    Owner(s.lockWchan, s.pc, t, HoldsWchan);
    Owner(s.holder, s.pc, t, HoldsLock);
    OwnedSet(s.lockSpin, s'.lockSpin, s.pc, t, p, HoldsSpin);
    OwnedSet(s.lockWchan, s'.lockWchan, s.pc, t, p, HoldsWchan);
    OwnedSet(s.holder, s'.holder, s.pc, t, p, HoldsLock);
  }

  lemma Owner(owner: Option<Thread>, pc: map<Thread, Pc>, t: Thread, holds: Pc -> bool)
    requires OwnedBy(owner, pc, holds)
    ensures owner == Some(t) <==> t in pc && holds(pc[t])
  {
  }

  lemma OwnStepCv(s: State, a: Action, s': State, v: Cv)
    requires CvsOk(s) && Enabled(s, a) && s' == Apply(s, a) && s'.pc == s.pc[a.t := Goes(s, a)] && v in s.cvWchan
    requires (!a.WakeOne? || s.lockQueue == []) && !a.Signal? && !a.Broadcast?
    ensures v in s'.cvWchan && OwnedBy(s'.cvWchan[v], s'.pc, q => HoldsCv(q, v))
    ensures v in s'.cvQueue && Queued(s'.cvQueue[v], s'.pc, CvAsleep(v))
  {
    hide OwnedBy;
    hide Queued;
    var t, p := a.t, Goes(s, a);
    Owner(s.cvWchan[v], s.pc, t, q => HoldsCv(q, v));
    OwnedSet(s.cvWchan[v], s'.cvWchan[v], s.pc, t, p, q => HoldsCv(q, v));
    if p == CvAsleep(v) {
      QueuedPush(s.cvQueue[v], s.pc, t, CvAsleep(v));
    } else {
      QueuedSet(s.cvQueue[v], s.pc, t, p, CvAsleep(v));
    }
  }

  lemma OwnStepCvs(s: State, a: Action, s': State)
    requires CvsOk(s) && Enabled(s, a) && s' == Apply(s, a) && s'.pc == s.pc[a.t := Goes(s, a)]
    requires (!a.WakeOne? || s.lockQueue == []) && !a.Signal? && !a.Broadcast?
    ensures CvsOk(s')
  {
    hide OwnedBy;
    hide Queued;
    forall v: Cv | v in s.cvWchan
      ensures v in s'.cvWchan && OwnedBy(s'.cvWchan[v], s'.pc, q => HoldsCv(q, v))
      ensures v in s'.cvQueue && Queued(s'.cvQueue[v], s'.pc, CvAsleep(v))
    {
      OwnStepCv(s, a, s', v);
    }
  }

  lemma OwnStepQueue(s: State, a: Action, s': State)
    requires Queued(s.lockQueue, s.pc, LockAsleep) && Enabled(s, a) && s' == Apply(s, a)
    requires s'.pc == s.pc[a.t := Goes(s, a)] && (!a.WakeOne? || s.lockQueue == []) && !a.Signal? && !a.Broadcast?
    ensures Queued(s'.lockQueue, s'.pc, LockAsleep)
  {
    hide Queued;
    if a.Sleep? {
      QueuedPush(s.lockQueue, s.pc, a.t, LockAsleep);
    } else {
      QueuedSet(s.lockQueue, s.pc, a.t, Goes(s, a), LockAsleep);
    }
  }

  lemma OwnStepFree(s: State, a: Action, s': State)
    requires OwnersOk(s) && FreeOk(s) && Enabled(s, a) && s' == Apply(s, a)
    requires s'.pc == s.pc[a.t := Goes(s, a)] && (!a.WakeOne? || s.lockQueue == []) && !a.Signal? && !a.Broadcast?
    ensures FreeOk(s')
  {
    hide OwnedBy;
    Owner(s.lockWchan, s.pc, a.t, HoldsWchan);
    if s'.holder == None && (s'.lockQueue != [] || s'.lockWchan.Some?) {
      if a.Clear? {
        assert s'.pc[a.t].Cleared?;
      } else {
        var t :| t in s.pc && (Contends(s.pc[t]) || s.pc[t].Cleared?);
        assert Contends(s'.pc[t]) || s'.pc[t].Cleared?;
      }
    }
  }

  lemma OwnStepKeeps(s: State, a: Action, s': State)
    requires Inv(s) && Enabled(s, a) && s' == Apply(s, a)
    requires (!a.WakeOne? || s.lockQueue == []) && !a.Signal? && !a.Broadcast?
    ensures Inv(s')
  {
    hide OwnersOk;
    hide CvsOk;
    hide Queued;
    hide FreeOk;
    assert s'.pc == s.pc[a.t := Goes(s, a)];
    OwnStepOwners(s, a, s');
    OwnStepCvs(s, a, s');
    OwnStepQueue(s, a, s');
    OwnStepFree(s, a, s');
  }

  /** lock_release wakes the first sleeper, which then contends for the lock. */
  lemma WakeKeeps(s: State, t: Thread, s': State, h: Thread, pc1: map<Thread, Pc>)
    requires Inv(s) && Enabled(s, WakeOne(t)) && s.lockQueue != [] && s' == Apply(s, WakeOne(t))
    requires h == s.lockQueue[0] && pc1 == s.pc[t := Woke(s.pc[t].cv)]
    ensures Inv(s')
  {
    hide OwnedBy;
    hide Queued;
    QueuedSet(s.lockQueue, s.pc, t, pc1[t], LockAsleep);
    QueuedPop(s.lockQueue, pc1, Want(true), LockAsleep);
    Move2(s.lockSpin, s.pc, t, pc1[t], h, Want(true), HoldsSpin);
    Move2(s.lockWchan, s.pc, t, pc1[t], h, Want(true), HoldsWchan);
    Move2(s.holder, s.pc, t, pc1[t], h, Want(true), HoldsLock);
    forall v: Cv | v in s.cvWchan
      ensures OwnedBy(s.cvWchan[v], s'.pc, q => HoldsCv(q, v)) && Queued(s.cvQueue[v], s'.pc, CvAsleep(v))
    {
      Move2(s.cvWchan[v], s.pc, t, pc1[t], h, Want(true), q => HoldsCv(q, v));
      QueuedSet(s.cvQueue[v], s.pc, t, pc1[t], CvAsleep(v));
      QueuedSet(s.cvQueue[v], pc1, h, Want(true), CvAsleep(v));
    }
    assert Contends(s'.pc[h]);
  }

  /** Two threads move without changing who holds a lock. */
  lemma Move2(owner: Option<Thread>, pc: map<Thread, Pc>, t: Thread, p: Pc, h: Thread, p': Pc, holds: Pc -> bool)
    requires OwnedBy(owner, pc, holds) && t in pc && h in pc && t != h
    requires holds(p) == holds(pc[t]) && holds(p') == holds(pc[h])
    ensures OwnedBy(owner, pc[t := p][h := p'], holds)
  {
  }

  /** cv_signal and cv_broadcast move the first n sleepers to lock_acquire. */
  lemma ContendKeeps(s: State, v: Cv, n: nat, s': State, ts: seq<Thread>)
    requires Inv(s) && v in s.cvQueue && n <= |s.cvQueue[v]| && ts == s.cvQueue[v][..n]
    requires s' == s.(pc := Contend(s.pc, ts), cvQueue := s.cvQueue[v := s.cvQueue[v][n..]])
    ensures Inv(s')
  {
    hide OwnedBy;
    hide Queued;
    Sleepers(s.cvQueue[v], s.pc, n, CvAsleep(v));
    QueuedLeave(s.cvQueue[v], s.pc, n, CvAsleep(v));
    OwnedContend(s.lockSpin, s.pc, ts, HoldsSpin);
    OwnedContend(s.lockWchan, s.pc, ts, HoldsWchan);
    OwnedContend(s.holder, s.pc, ts, HoldsLock);
    QueuedContend(s.lockQueue, s.pc, ts, LockAsleep);
    forall w: Cv | w in s.cvWchan
      ensures OwnedBy(s.cvWchan[w], s'.pc, q => HoldsCv(q, w)) && Queued(s'.cvQueue[w], s'.pc, CvAsleep(w))
    {
      OwnedContend(s.cvWchan[w], s.pc, ts, q => HoldsCv(q, w));
      if w != v {
        QueuedContend(s.cvQueue[w], s.pc, ts, CvAsleep(w));
      }
    }
    if HasContender(s) {
      var t :| t in s.pc && (Contends(s.pc[t]) || s.pc[t].Cleared?);
      assert s'.pc[t] == s.pc[t];
    }
  }

  lemma Sleepers(q: seq<Thread>, pc: map<Thread, Pc>, n: nat, at: Pc)
    requires Queued(q, pc, at) && n <= |q|
    ensures forall t | t in q[..n] :: t in pc && pc[t] == at
  {
    assert forall t | t in q[..n] :: t in q;
  }

  lemma StepKeeps(s: State, a: Action)
    requires Inv(s) && Enabled(s, a)
    ensures Inv(Apply(s, a))
  {
    hide Inv;
    hide Contend;
    var s' := Apply(s, a);
    match a {
      case Signal(t, v) =>
        HasQueue(s, v);
        if s.cvQueue[v] != [] {
          assert s.cvQueue[v][..1] == [s.cvQueue[v][0]];
          ContendKeeps(s, v, 1, s', s.cvQueue[v][..1]);
        }
      case Broadcast(t, v) =>
        HasQueue(s, v);
        var q := s.cvQueue[v];
        assert q[..|q|] == q && q[|q|..] == [];
        ContendKeeps(s, v, |q|, s', q);
      case WakeOne(t) =>
        if s.lockQueue != [] {
          WakeKeeps(s, t, s', s.lockQueue[0], s.pc[t := Woke(s.pc[t].cv)]);
        } else {
          OwnStepKeeps(s, a, s');
        }
      case Start(_) | Spin(_) | Take(_) | Bridge(_) | Unspin(_) | Sleep(_) | Release(_) | Clear(_) | Done(_)
         | CvWait(_, _) | CvSleep(_) => OwnStepKeeps(s, a, s');
    }
  }

  lemma HasQueue(s: State, v: Cv)
    requires Inv(s) && v in s.cvWchan
    ensures v in s.cvQueue
  {
    hide OwnedBy;
    hide Queued;
  }

  ghost predicate IsRun(states: seq<State>, acts: seq<Action>) {
    && |states| == |acts| + 1 && Init(states[0])
    && forall k | 0 <= k < |acts| :: Enabled(states[k], acts[k]) && states[k + 1] == Apply(states[k], acts[k])
  }

  lemma {:induction false} RunInv(states: seq<State>, acts: seq<Action>, k: nat)
    requires IsRun(states, acts) && k < |states|
    ensures Inv(states[k])
  {
    if k > 0 {
      hide Inv;
      hide Apply;
      hide Enabled;
      RunInv(states, acts, k - 1);
      StepKeeps(states[k - 1], acts[k - 1]);
    }
  }

  /** At most one thread is between lock_acquire and lock_release, and lk_holder names it. */
  lemma MutualExclusion(states: seq<State>, acts: seq<Action>, k: nat, t: Thread, u: Thread)
    requires IsRun(states, acts) && k < |states| && t in states[k].pc && u in states[k].pc
    requires HoldsLock(states[k].pc[t])
    ensures states[k].holder == Some(t) && (HoldsLock(states[k].pc[u]) ==> u == t)
  {
    hide Apply;
    hide Enabled;
    RunInv(states, acts, k);
  }

  /** A free lock that a thread is asleep on is about to be looked at by a woken thread, or a release is to wake one. */
  lemma FreeLockIsTaken(states: seq<State>, acts: seq<Action>, k: nat)
    requires IsRun(states, acts) && k < |states| && states[k].holder == None && states[k].lockQueue != []
    ensures exists t :: t in states[k].pc && (Contends(states[k].pc[t]) || states[k].pc[t].Cleared?)
  {
    hide Apply;
    hide Enabled;
    RunInv(states, acts, k);
  }

  /**
   * When cv_signal or cv_broadcast looks at the wait channel, no thread is anywhere in cv_wait between locking
   * that channel and sleeping on it: every thread whose cv_wait released the lock before is on it. The wakeup reaches
   * the first of them, or all, and leaves everybody else where they are.
   */
  lemma WaitersAreVisible(states: seq<State>, acts: seq<Action>, k: nat, v: Cv, t: Thread)
    requires IsRun(states, acts) && k < |acts| && (acts[k].Signal? || acts[k].Broadcast?) && acts[k].v == v
    requires t in states[k].pc
    ensures !HoldsCv(states[k].pc[t], v) && v in states[k].cvQueue
    ensures states[k].pc[t] == CvAsleep(v) <==> t in states[k].cvQueue[v]
    ensures t in states[k + 1].pc
    ensures states[k + 1].pc[t] == if t in states[k].cvQueue[v] && (acts[k].Broadcast? || t == states[k].cvQueue[v][0])
                                   then Want(false) else states[k].pc[t]
  {
    hide OwnersOk;
    hide FreeOk;
    hide NoDup;
    RunInv(states, acts, k);
    var s := states[k];
    Owner(s.cvWchan[v], s.pc, t, q => HoldsCv(q, v));
    assert Queued(s.cvQueue[v], s.pc, CvAsleep(v));
  }
}
