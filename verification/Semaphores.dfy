/** P and V (kern/thread/synch.c:90-144) as steps between spinlock operations, for any number of threads. */
module Semaphores {
  import opened Common

  type Thread = nat

  /** Where a thread is in P or V. */
  datatype Pc =
    | Out
    | Wanting(woken: bool)    // P, before taking sem_lock
    | Testing(woken: bool)    // P, holding sem_lock
    | Bridging                // P, holding sem_lock and the wait channel's lock
    | Bridged                 // P, holding the wait channel's lock only
    | Asleep                  // P, on the wait channel
    | VWanting
    | VRaised                 // V, holding sem_lock, count raised, nobody woken yet
    | VWoke                   // V, holding sem_lock, wakeup done

  datatype State = State(
    count: nat,
    semLock: Option<Thread>,
    wchanLock: Option<Thread>,
    queue: seq<Thread>,       // the wait channel
    pc: map<Thread, Pc>)

  datatype Action = PStart(t: Thread) | PLock(t: Thread) | PTake(t: Thread) | PBridge(t: Thread) | PUnlock(t: Thread)
                  | PSleep(t: Thread) | VStart(t: Thread) | VLock(t: Thread) | VWake(t: Thread) | VUnlock(t: Thread)

  predicate Enabled(s: State, a: Action) {
    && a.t in s.pc
    && match a
       case PStart(t) => s.pc[t] == Out
       case PLock(t) => s.pc[t].Wanting? && s.semLock == None
       case PTake(t) => s.pc[t].Testing? && s.count > 0
       case PBridge(t) => s.pc[t].Testing? && s.count == 0 && s.wchanLock == None
       case PUnlock(t) => s.pc[t] == Bridging
       case PSleep(t) => s.pc[t] == Bridged
       case VStart(t) => s.pc[t] == Out
       case VLock(t) => s.pc[t] == VWanting && s.semLock == None
       case VWake(t) => s.pc[t] == VRaised && s.wchanLock == None
       case VUnlock(t) => s.pc[t] == VWoke
  }

  function Apply(s: State, a: Action): State
    requires Enabled(s, a)
  {
    match a
    case PStart(t) => s.(pc := s.pc[t := Wanting(false)])
    case PLock(t) => s.(pc := s.pc[t := Testing(s.pc[t].woken)], semLock := Some(t))
    case PTake(t) => s.(pc := s.pc[t := Out], semLock := None, count := s.count - 1)
    case PBridge(t) => s.(pc := s.pc[t := Bridging], wchanLock := Some(t))
    case PUnlock(t) => s.(pc := s.pc[t := Bridged], semLock := None)
    case PSleep(t) => s.(pc := s.pc[t := Asleep], wchanLock := None, queue := s.queue + [t])
    case VStart(t) => s.(pc := s.pc[t := VWanting])
    case VLock(t) => s.(pc := s.pc[t := VRaised], semLock := Some(t), count := s.count + 1)
    case VWake(t) =>
      if s.queue == [] then s.(pc := s.pc[t := VWoke])
      else s.(pc := s.pc[t := VWoke][s.queue[0] := Wanting(true)], queue := s.queue[1..])
    case VUnlock(t) => s.(pc := s.pc[t := Out], semLock := None)
  }

  predicate HoldsSem(pc: Pc) {
    pc.Testing? || pc == Bridging || pc == VRaised || pc == VWoke
  }

  predicate HoldsWchan(pc: Pc) {
    pc == Bridging || pc == Bridged
  }

  /** Woken threads that have not finished their P. */
  function Woken(pc: map<Thread, Pc>): set<Thread> {
    set t | t in pc && (pc[t] == Wanting(true) || pc[t] == Testing(true))
  }

  /** A V that has raised the count and not yet woken anyone. */
  function InV(s: State): nat {
    if s.semLock.Some? && s.semLock.value in s.pc && s.pc[s.semLock.value] == VRaised then 1 else 0
  }

  ghost predicate Locks(s: State) {
    && (forall t: Thread | t in s.pc :: HoldsSem(s.pc[t]) <==> s.semLock == Some(t))
    && (forall t: Thread | t in s.pc :: HoldsWchan(s.pc[t]) <==> s.wchanLock == Some(t))
    && (s.semLock.Some? ==> s.semLock.value in s.pc) && (s.wchanLock.Some? ==> s.wchanLock.value in s.pc)
  }

  ghost predicate QueueOk(s: State) {
    && (forall i, j | 0 <= i < j < |s.queue| :: s.queue[i] != s.queue[j])
    && (forall t: Thread :: t in s.queue <==> t in s.pc && s.pc[t] == Asleep)
  }

  /** With a thread asleep or going to sleep, the count is covered by woken threads and a V in progress. */
  predicate Covered(s: State) {
    s.queue != [] || s.wchanLock.Some? ==> s.count <= |Woken(s.pc)| + InV(s)
  }

  ghost predicate Inv(s: State) {
    Locks(s) && QueueOk(s) && Covered(s)
  }

  ghost predicate Init(s: State) {
    && s.semLock == None && s.wchanLock == None && s.queue == []
    && forall t | t in s.pc :: s.pc[t] == Out
  }

  /** One thread's own change of place: who counts as woken follows. */
  lemma WokenSet(pc: map<Thread, Pc>, t: Thread, p: Pc)
    ensures Woken(pc[t := p]) == if p == Wanting(true) || p == Testing(true) then Woken(pc) + {t} else Woken(pc) - {t}
  {
  }

  lemma StepLocks(s: State, a: Action)
    requires Locks(s) && QueueOk(s) && Enabled(s, a)
    ensures Locks(Apply(s, a))
  {
    hide QueueOk;
    var s' := Apply(s, a);
    if s.queue != [] {
      HeadAsleep(s);
    }
    forall t: Thread | t in s'.pc
      ensures HoldsSem(s'.pc[t]) <==> s'.semLock == Some(t)
      ensures HoldsWchan(s'.pc[t]) <==> s'.wchanLock == Some(t)
    {
      assert t in s.pc;
    }
  }

  lemma HeadAsleep(s: State)
    requires QueueOk(s) && s.queue != []
    ensures s.queue[0] in s.pc && s.pc[s.queue[0]] == Asleep
  {
    assert s.queue[0] in s.queue;
  }

  lemma StepQueue(s: State, a: Action)
    requires QueueOk(s) && Enabled(s, a)
    ensures QueueOk(Apply(s, a))
  {
    if a.VWake? && s.queue != [] {
      assert s.queue[0] in s.queue;
      assert forall t :: t in s.queue[1..] <==> t in s.queue && t != s.queue[0];
    }
  }

  lemma StepCovered(s: State, a: Action)
    requires Locks(s) && QueueOk(s) && Covered(s) && Enabled(s, a)
    ensures Covered(Apply(s, a))
  {
    hide Woken;
    hide QueueOk;
    var s', t := Apply(s, a), a.t;
    WokenSet(s.pc, t, s'.pc[t]);
    WokenMember(s.pc, t);
    if a.VWake? && s.queue != [] {
      WakeCovered(s, t);
    }
  }

  lemma StepKeeps(s: State, a: Action)
    requires Inv(s) && Enabled(s, a)
    ensures Inv(Apply(s, a))
  {
    hide Locks;
    hide QueueOk;
    hide Covered;
    StepLocks(s, a);
    StepQueue(s, a);
    StepCovered(s, a);
  }

  lemma WokenMember(pc: map<Thread, Pc>, t: Thread)
    requires t in pc
    ensures t in Woken(pc) <==> pc[t] == Wanting(true) || pc[t] == Testing(true)
  {
  }

  /** Waking a thread covers the count that V raised. */
  lemma WakeCovered(s: State, t: Thread)
    requires Locks(s) && QueueOk(s) && Covered(s) && Enabled(s, VWake(t)) && s.queue != []
    ensures Covered(Apply(s, VWake(t)))
  {
    hide Woken;
    var h := s.queue[0];
    assert h in s.queue;
    WokenSet(s.pc, t, VWoke);
    WokenSet(s.pc[t := VWoke], h, Wanting(true));
    WokenMember(s.pc, t);
    WokenMember(s.pc, h);
  }

  ghost predicate IsRun(states: seq<State>, acts: seq<Action>) {
    && |states| == |acts| + 1 && Init(states[0])
    && forall k | 0 <= k < |acts| :: Enabled(states[k], acts[k]) && states[k + 1] == Apply(states[k], acts[k])
  }

  lemma {:induction false} RunInv(states: seq<State>, acts: seq<Action>, k: nat)
    requires IsRun(states, acts) && k < |states|
    ensures Inv(states[k])
  {
    if k > 0 {
      hide Inv;
      hide Apply;
      hide Enabled;
      RunInv(states, acts, k - 1);
      StepKeeps(states[k - 1], acts[k - 1]);
    }
  }

  /**
   * In every run, with sleepers on the wait channel the count never exceeds the woken threads and a V in progress; and
   * when nobody holds the semaphore's spinlock, a positive count then means a woken thread is about to take it.
   */
  lemma NoLostWakeup(states: seq<State>, acts: seq<Action>, k: nat)
    requires IsRun(states, acts) && k < |states|
    ensures states[k].queue != [] ==> states[k].count <= |Woken(states[k].pc)| + InV(states[k])
    ensures states[k].semLock == None && states[k].queue != [] && states[k].count > 0 ==>
              exists t :: t in states[k].pc && states[k].pc[t] == Wanting(true)
  {
    RunInv(states, acts, k);
    var s := states[k];
    if s.semLock == None && s.queue != [] && s.count > 0 {
      var t :| t in Woken(s.pc);
      assert s.pc[t] == Wanting(true);
    }
  }

  // ---- what a semaphore is for ----

  /** How many of the actions are a V's raise, and how many a P's success. */
  function Raises(acts: seq<Action>): nat {
    if acts == [] then 0 else Raises(acts[..|acts| - 1]) + if acts[|acts| - 1].VLock? then 1 else 0
  }

  function Takes(acts: seq<Action>): nat {
    if acts == [] then 0 else Takes(acts[..|acts| - 1]) + if acts[|acts| - 1].PTake? then 1 else 0
  }

  /** In every run the count is the first one, and what the V's gave, less what the P's took. */
  lemma {:induction false} CountIs(states: seq<State>, acts: seq<Action>, k: nat)
    requires IsRun(states, acts) && k < |states|
    ensures states[k].count == states[0].count + Raises(acts[..k]) - Takes(acts[..k])
  {
    if k > 0 {
      CountIs(states, acts, k - 1);
      assert acts[..k][..k - 1] == acts[..k - 1];
    }
  }

  /** What a caller knows of a thread: it is in neither, or in P, or in V, before or after V took effect. */
  datatype Call = Idle | InP | InV0 | InV1

  function CallOf(pc: Pc): Call {
    match pc
    case Out => Idle
    case VWanting => InV0
    case VRaised => InV1
    case VWoke => InV1
    case _ => InP
  }

  /** The calls of all threads. */
  function Calls(pc: map<Thread, Pc>): map<Thread, Call> {
    map t | t in pc :: CallOf(pc[t])
  }

  /**
   * A semaphore as its callers see it: P ends only by taking one from a positive count, V by giving one, and nothing
   * else that goes on inside can be told.
   */
  ghost predicate Atomic(count: nat, calls: map<Thread, Call>, a: Action, count': nat, calls': map<Thread, Call>) {
    && a.t in calls
    && match a
       case PStart(t) => calls[t] == Idle && calls' == calls[t := InP] && count' == count
       case PTake(t) => calls[t] == InP && count > 0 && calls' == calls[t := Idle] && count' == count - 1
       case VStart(t) => calls[t] == Idle && calls' == calls[t := InV0] && count' == count
       case VLock(t) => calls[t] == InV0 && calls' == calls[t := InV1] && count' == count + 1
       case VUnlock(t) => calls[t] == InV1 && calls' == calls[t := Idle] && count' == count
       case _ => calls' == calls && count' == count
  }

  lemma CallsSet(pc: map<Thread, Pc>, t: Thread, p: Pc)
    ensures Calls(pc[t := p]) == Calls(pc)[t := CallOf(p)]
    ensures t in pc && CallOf(p) == CallOf(pc[t]) ==> Calls(pc[t := p]) == Calls(pc)
  {
  }

  lemma AtomicStep(s: State, a: Action)
    requires QueueOk(s) && Enabled(s, a)
    ensures Atomic(s.count, Calls(s.pc), a, Apply(s, a).count, Calls(Apply(s, a).pc))
  {
    hide QueueOk;
    assert a.t in Calls(s.pc) && Calls(s.pc)[a.t] == CallOf(s.pc[a.t]);
    hide Calls;
    var s' := Apply(s, a);
    if a.VWake? && s.queue != [] {
      HeadAsleep(s);
      CallsSet(s.pc, a.t, VWoke);
      CallsSet(s.pc[a.t := VWoke], s.queue[0], Wanting(true));
    } else {
      CallsSet(s.pc, a.t, s'.pc[a.t]);
    }
  }

  /** Every step of every run is one of the atomic semaphore, or none that can be told. */
  lemma RefinesAtomic(states: seq<State>, acts: seq<Action>, k: nat)
    requires IsRun(states, acts) && k < |acts|
    ensures Atomic(states[k].count, Calls(states[k].pc), acts[k], states[k + 1].count, Calls(states[k + 1].pc))
  {
    hide Apply;
    hide Enabled;
    hide Atomic;
    RunInv(states, acts, k);
    AtomicStep(states[k], acts[k]);
  }

  /** The threads that went to sleep, in order. */
  function Slept(acts: seq<Action>): seq<Thread> {
    if acts == [] then []
    else Slept(acts[..|acts| - 1]) + if acts[|acts| - 1].PSleep? then [acts[|acts| - 1].t] else []
  }

  /** How many V's found somebody asleep. */
  ghost function Wakeups(states: seq<State>, acts: seq<Action>): nat
    requires |states| > |acts|
  {
    if acts == [] then 0
    else Wakeups(states, acts[..|acts| - 1])
         + if acts[|acts| - 1].VWake? && Asleeps(states[|acts| - 1].pc) != {} then 1 else 0
  }

  function Asleeps(pc: map<Thread, Pc>): set<Thread> {
    set t | t in pc && pc[t] == Asleep
  }

  lemma QueueStep(s: State, a: Action)
    requires Enabled(s, a)
    ensures Apply(s, a).queue == if a.PSleep? then s.queue + [a.t]
                                 else if a.VWake? && s.queue != [] then s.queue[1..]
                                 else s.queue
  {
  }

  /** Threads are woken in the order in which they went to sleep, one by each V that finds any. */
  lemma {:induction false} WokenInOrder(states: seq<State>, acts: seq<Action>, k: nat)
    requires IsRun(states, acts) && k < |states|
    ensures var n := Wakeups(states, acts[..k]);
            && n <= |Slept(acts[..k])| && states[k].queue == Slept(acts[..k])[n..]
            && Asleeps(states[k].pc) == set t | t in Slept(acts[..k])[n..]
  {
    hide Inv;
    hide Apply;
    hide Enabled;
    hide Asleeps;
    RunQueueOk(states, acts, k);
    SleepersAre(states[k]);
    if k > 0 {
      RunQueueOk(states, acts, k - 1);
      SleepersAre(states[k - 1]);
      WokenInOrder(states, acts, k - 1);
      QueueStep(states[k - 1], acts[k - 1]);
      assert acts[..k][..k - 1] == acts[..k - 1];
    }
  }

  lemma RunQueueOk(states: seq<State>, acts: seq<Action>, k: nat)
    requires IsRun(states, acts) && k < |states|
    ensures QueueOk(states[k])
  {
    hide Apply;
    hide Enabled;
    RunInv(states, acts, k);
  }

  lemma SleepersAre(s: State)
    requires QueueOk(s)
    ensures Asleeps(s.pc) == set t | t in s.queue
    ensures Asleeps(s.pc) == {} <==> s.queue == []
  {
    if s.queue != [] {
      assert s.queue[0] in Asleeps(s.pc);
    }
  }

  /** A woken thread is one that a V took off the wait channel, and that has not got through since. */
  ghost predicate WokenAt(states: seq<State>, acts: seq<Action>, j: nat, k: nat, t: Thread)
    requires IsRun(states, acts) && k < |states|
  {
    && j < k && acts[j].VWake? && t in Asleeps(states[j].pc) && t !in Asleeps(states[j + 1].pc)
    && forall m | j <= m < k :: acts[m] != PTake(t)
  }

  lemma {:induction false} WokenWasAsleep(states: seq<State>, acts: seq<Action>, k: nat, t: Thread) returns (j: nat)
    requires IsRun(states, acts) && k < |states| && t in Woken(states[k].pc)
    ensures WokenAt(states, acts, j, k, t)
  {
    hide Apply;
    hide Enabled;
    if k > 0 {
      RunQueueOk(states, acts, k - 1);
      BecomesWoken(states[k - 1], acts[k - 1], t);
      hide Woken;
      hide Asleeps;
      hide QueueOk;
      if t in Woken(states[k - 1].pc) {
        j := WokenWasAsleep(states, acts, k - 1, t);
      } else {
        j := k - 1;
      }
    }
  }

  lemma BecomesWoken(s: State, a: Action, t: Thread)
    requires QueueOk(s) && Enabled(s, a) && t in Woken(Apply(s, a).pc)
    ensures a != PTake(t)
    ensures t in Woken(s.pc) || (a.VWake? && t in Asleeps(s.pc) && t !in Asleeps(Apply(s, a).pc))
  {
    hide QueueOk;
    if s.queue != [] {
      HeadAsleep(s);
    }
  }
}
