/**
 * What the thread system of kern/thread/thread.c promises the threads: where each step takes them, and in which order
 * they wake and run.
 */
module Scheduler {
  import opened Common
  import opened Threads
  import opened ThreadProofs

  // ---- where threads are ----

  /** Executing on a CPU, to be executed some time, asleep on a wait channel, or dead. */
  datatype Whereabouts = Running(c: Cpu) | Ready | Sleeping(w: nat) | Dead

  function PlaceOn(l: Loc): Whereabouts {
    match l
    case WaitChannel(w) => Sleeping(w)
    case Zombies(_) => Dead
    case _ => Ready
  }

  ghost predicate At(s: State, t: Thread, p: Whereabouts) {
    && t in s.tcpu
    && ((exists l :: On(s.lists, t, l) && PlaceOn(l) == p) || (!Somewhere(s.lists, t) && p == Running(s.tcpu[t])))
  }

  /** Thread x, which was at from_, is at to_, and all others are where they were. */
  ghost predicate Goes(s: State, s': State, x: Thread, from_: Whereabouts, to_: Whereabouts) {
    At(s, x, from_) && forall t, p :: At(s', t, p) <==> if t == x then p == to_ else At(s, t, p)
  }

  ghost predicate Comes(s: State, s': State, x: Thread, to_: Whereabouts) {
    x !in s.tcpu && forall t, p :: At(s', t, p) <==> if t == x then p == to_ else At(s, t, p)
  }

  ghost predicate Vanishes(s: State, s': State, x: Thread, from_: Whereabouts) {
    At(s, x, from_) && forall t, p :: At(s', t, p) <==> t != x && At(s, t, p)
  }

  ghost predicate Stay(s: State, s': State) {
    forall t, p :: At(s', t, p) <==> At(s, t, p)
  }

  /**
   * The scheduler as the threads see it. Queues, locks, interrupts and migration between CPUs are nothing a thread that
   * is not executing can tell.
   */
  ghost predicate Scheduled(s: State, a: Action, s': State) {
    match a
    case Yield(c) => c < |s.cur| && Goes(s, s', s.cur[c], Running(c), Ready)
    case Sleep(c, w) => c < |s.cur| && Goes(s, s', s.cur[c], Running(c), Sleeping(w))
    case Exit(c) => c < |s.cur| && Goes(s, s', s.cur[c], Running(c), Dead)
    case Dispatch(c) => c < |s'.cur| && Goes(s, s', s'.cur[c], Ready, Running(c))
    case Fork(c, t) => Comes(s, s', t, Ready) && c < |s.cur| && At(s, s.cur[c], Running(c))
    case Exorcise(_) => exists z :: Vanishes(s, s', z, Dead)
    case WakeOne(w) => exists t :: Goes(s, s', t, Sleeping(w), Ready)
    case _ => Stay(s, s')
  }

  lemma SamePlaces(s: State, s': State, t: Thread, p: Whereabouts)
    requires t in s.tcpu <==> t in s'.tcpu
    requires t in s.tcpu && !Somewhere(s.lists, t) ==> s'.tcpu[t] == s.tcpu[t]
    requires forall l :: On(s'.lists, t, l) <==> On(s.lists, t, l)
    ensures At(s', t, p) <==> At(s, t, p)
  {
    hide On;
  }

  /** A thread that is on one list only is at the place of that list. */
  lemma PlaceIs(s: State, x: Thread, l: Loc)
    requires x in s.tcpu && forall l' :: On(s.lists, x, l') <==> l' == l
    ensures forall p :: At(s, x, p) <==> p == PlaceOn(l)
  {
    hide On;
    assert On(s.lists, x, l);
  }

  lemma AddedGoes(s: State, s': State, x: Thread, l: Loc)
    requires Added(s.lists, s'.lists, x, l) && !Somewhere(s.lists, x) && s'.tcpu == s.tcpu && x in s.tcpu
    ensures Goes(s, s', x, Running(s.tcpu[x]), PlaceOn(l))
  {
    hide On;
    hide At;
    forall l'
      ensures On(s'.lists, x, l') <==> l' == l
    {
      assert !On(s.lists, x, l');
    }
    PlaceIs(s', x, l);
    forall t, p | t != x
      ensures At(s', t, p) <==> At(s, t, p)
    {
      SamePlaces(s, s', t, p);
    }
    assert At(s, x, Running(s.tcpu[x])) by {
      NowhereIs(s, x);
    }
  }

  lemma NowhereIs(s: State, x: Thread)
    requires x in s.tcpu && !Somewhere(s.lists, x)
    ensures forall p :: At(s, x, p) <==> p == Running(s.tcpu[x])
  {
    hide On;
  }

  lemma MovedGoes(s: State, s': State, x: Thread, from_: Loc, to_: Loc)
    requires On(s.lists, x, from_) && Moved(s.lists, s'.lists, x, to_) && Unique(s.lists)
    requires s'.tcpu.Keys == s.tcpu.Keys && x in s.tcpu && forall t | t in s.tcpu && t != x :: s'.tcpu[t] == s.tcpu[t]
    ensures Goes(s, s', x, PlaceOn(from_), PlaceOn(to_))
    ensures PlaceOn(from_) == PlaceOn(to_) ==> Stay(s, s')
  {
    hide On;
    hide At;
    PlaceIs(s', x, to_);
    PlaceIs(s, x, from_);
    forall t, p | t != x
      ensures At(s', t, p) <==> At(s, t, p)
    {
      SamePlaces(s, s', t, p);
    }
  }

  lemma RemovedGoes(s: State, s': State, x: Thread, from_: Loc)
    requires On(s.lists, x, from_) && Removed(s.lists, s'.lists, x) && Unique(s.lists) && x in s.tcpu
    ensures s'.tcpu == s.tcpu ==> Goes(s, s', x, PlaceOn(from_), Running(s.tcpu[x]))
    ensures s'.tcpu == s.tcpu - {x} ==> Vanishes(s, s', x, PlaceOn(from_))
  {
    hide On;
    hide At;
    PlaceIs(s, x, from_);
    forall t, p | t != x
      ensures s'.tcpu == s.tcpu || s'.tcpu == s.tcpu - {x} ==> (At(s', t, p) <==> At(s, t, p))
    {
      if s'.tcpu == s.tcpu || s'.tcpu == s.tcpu - {x} {
        SamePlaces(s, s', t, p);
      }
    }
    if s'.tcpu == s.tcpu {
      NowhereIs(s', x);
    }
    assert s'.tcpu == s.tcpu - {x} ==> forall p :: !At(s', x, p) by { GoneIs(s', x); }
  }

  lemma GoneIs(s: State, x: Thread)
    ensures x !in s.tcpu ==> forall p :: !At(s, x, p)
  {
  }

  lemma SameLists(s: State, s': State)
    requires s'.lists == s.lists && s'.tcpu == s.tcpu
    ensures Stay(s, s')
  {
  }

  /** The running thread goes on a list. */
  lemma PlaceStep(s: State, c: Cpu, l: Loc)
    requires Inv(s) && c < |s.pc| && s.pc[c] == Run
    ensures |s.cur| == |s.pc| && Goes(s, Place(s, c, l), s.cur[c], Running(c), PlaceOn(l))
  {
    hide L;
    hide On;
    hide Unique;
    hide HomeOk;
    hide VictimsOk;
    hide DestOk;
    hide PhasesOk;
    hide SavedOk;
    hide PlacedOk;
    hide CurPlacedOk;
    hide IpiOk;
    hide Goes;
    hide Stay;
    hide AddTail;
    var x := s.cur[c];
    assert forall l' :: !On(s.lists, x, l');
    AddOn(s.lists, Place(s, c, l).lists, l, x);
    AddedGoes(s, Place(s, c, l), x, l);
  }

  lemma DispatchStep(s: State, c: Cpu)
    requires Inv(s) && Enabled(s, Dispatch(c))
    ensures Scheduled(s, Dispatch(c), Apply(s, Dispatch(c)))
    ensures Apply(s, Dispatch(c)).cur[c] == L(s.lists, RunQueue(c))[0]
  {
    hide L;
    hide On;
    hide Unique;
    hide HomeOk;
    hide VictimsOk;
    hide DestOk;
    hide PhasesOk;
    hide SavedOk;
    hide PlacedOk;
    hide CurPlacedOk;
    hide IpiOk;
    hide Goes;
    hide Stay;
    hide Drop;
    var s', x := Apply(s, Dispatch(c)), L(s.lists, RunQueue(c))[0];
    DropOn(s.lists, s'.lists, RunQueue(c), 0);
    HomeAt(s.lists, s.tcpu, x, RunQueue(c));
    RemovedGoes(s, s', x, RunQueue(c));
  }

  lemma ForkStep(s: State, c: Cpu, t: Thread)
    requires Inv(s) && Enabled(s, Fork(c, t))
    ensures Scheduled(s, Fork(c, t), Apply(s, Fork(c, t)))
  {
    hide L;
    hide On;
    hide Unique;
    hide HomeOk;
    hide VictimsOk;
    hide DestOk;
    hide PhasesOk;
    hide SavedOk;
    hide PlacedOk;
    hide CurPlacedOk;
    hide IpiOk;
    hide Goes;
    hide Stay;
    hide AddTail;
    hide At;
    var s' := Apply(s, Fork(c, t));
    forall l
      ensures !On(s.lists, t, l)
    {
      if On(s.lists, t, l) {
        HomeAt(s.lists, s.tcpu, t, l);
      }
    }
    AddOn(s.lists, s'.lists, Transit, t);
    PlaceIs(s', t, Transit);
    forall u, p | u != t
      ensures At(s', u, p) <==> At(s, u, p)
    {
      SamePlaces(s, s', u, p);
    }
    NowhereIs(s, s.cur[c]);
  }

  lemma ExorciseStep(s: State, c: Cpu)
    requires Inv(s) && Enabled(s, Exorcise(c))
    ensures Scheduled(s, Exorcise(c), Apply(s, Exorcise(c)))
  {
    hide L;
    hide On;
    hide Unique;
    hide HomeOk;
    hide VictimsOk;
    hide DestOk;
    hide PhasesOk;
    hide SavedOk;
    hide PlacedOk;
    hide CurPlacedOk;
    hide IpiOk;
    hide Goes;
    hide Stay;
    hide Drop;
    var s', z := Apply(s, Exorcise(c)), L(s.lists, Zombies(c))[0];
    DropOn(s.lists, s'.lists, Zombies(c), 0);
    HomeAt(s.lists, s.tcpu, z, Zombies(c));
    RemovedGoes(s, s', z, Zombies(c));
    assert Vanishes(s, s', z, Dead);
  }

  lemma WakesHead(s: State, w: nat)
    requires Inv(s) && Enabled(s, WakeOne(w))
    ensures Goes(s, Apply(s, WakeOne(w)), L(s.lists, WaitChannel(w))[0], Sleeping(w), Ready)
  {
    hide L;
    hide On;
    hide Unique;
    hide Goes;
    hide Move;
    var s', t := Apply(s, WakeOne(w)), L(s.lists, WaitChannel(w))[0];
    MoveOn(s.lists, s'.lists, WaitChannel(w), 0, Transit);
    HomeAt(s.lists, s.tcpu, t, WaitChannel(w));
    MovedGoes(s, s', t, WaitChannel(w), Transit);
  }

  lemma WakeStep(s: State, w: nat)
    requires Inv(s) && Enabled(s, WakeOne(w))
    ensures Scheduled(s, WakeOne(w), Apply(s, WakeOne(w)))
  {
    hide Inv;
    hide Goes;
    hide Apply;
    hide L;
    WakesHead(s, w);
  }

  lemma EnqueueStep(s: State, k: nat)
    requires Inv(s) && Enabled(s, Enqueue(k))
    ensures Stay(s, Apply(s, Enqueue(k)))
  {
    hide L;
    hide On;
    hide Unique;
    hide HomeOk;
    hide VictimsOk;
    hide DestOk;
    hide PhasesOk;
    hide SavedOk;
    hide PlacedOk;
    hide CurPlacedOk;
    hide IpiOk;
    hide Goes;
    hide Stay;
    hide Move;
    var s', t := Apply(s, Enqueue(k)), L(s.lists, Transit)[k];
    MoveOn(s.lists, s'.lists, Transit, k, RunQueue(s.dest[t]));
    HomeAt(s.lists, s.tcpu, t, Transit);
    MovedGoes(s, s', t, Transit, RunQueue(s.dest[t]));
  }

  lemma MigrationStep(s: State, a: Action)
    requires Inv(s) && Enabled(s, a) && IsMigration(a)
    ensures Stay(s, Apply(s, a))
  {
    hide L;
    hide On;
    hide Unique;
    hide HomeOk;
    hide VictimsOk;
    hide DestOk;
    hide PhasesOk;
    hide SavedOk;
    hide PlacedOk;
    hide CurPlacedOk;
    hide IpiOk;
    hide Goes;
    hide Stay;
    hide Move;
    hide Drop;
    hide AddHead;
    var s', c := Apply(s, a), a.c;
    match a {
      case MigTake(_) =>
        var q := L(s.lists, RunQueue(c));
        MoveOn(s.lists, s'.lists, RunQueue(c), |q| - 1, Victims(c));
        HomeAt(s.lists, s.tcpu, q[|q| - 1], RunQueue(c));
        MovedGoes(s, s', q[|q| - 1], RunQueue(c), Victims(c));
      case MigPlace(_) =>
        var t := L(s.lists, Victims(c))[0];
        var l := if t == s.cur[c] then Victims(c) else RunQueue(s.pc[c].phase.next);
        MoveOn(s.lists, s'.lists, Victims(c), 0, l);
        HomeAt(s.lists, s.tcpu, t, Victims(c));
        MovedGoes(s, s', t, Victims(c), l);
      case MigPutBack(_) =>
        var t := L(s.lists, Victims(c))[0];
        MoveOn(s.lists, s'.lists, Victims(c), 0, RunQueue(c));
        HomeAt(s.lists, s.tcpu, t, Victims(c));
        MovedGoes(s, s', t, Victims(c), RunQueue(c));
      case _ => SameLists(s, s');
    }
  }

  lemma YieldsHere(s: State, c: Cpu)
    requires Inv(s) && Enabled(s, Yield(c))
    ensures Apply(s, Yield(c)) == Place(s, c, RunQueue(c))
  {
    hide L;
    hide On;
  }

  /** Every step of every run is one of that scheduler. */
  lemma RefinesScheduler(states: seq<State>, acts: seq<Action>, k: nat)
    requires IsRun(states, acts) && k < |acts|
    ensures Scheduled(states[k], acts[k], states[k + 1])
  {
    hide Inv;
    hide Goes;
    hide Stay;
    hide Place;
    hide L;
    RunInv(states, acts, k);
    var s, a := states[k], acts[k];
    match a {
      case Yield(c) =>
        YieldsHere(s, c);
        PlaceStep(s, c, RunQueue(c));
      case Sleep(c, w) => PlaceStep(s, c, WaitChannel(w));
      case Exit(c) => PlaceStep(s, c, Zombies(c));
      case Dispatch(c) => DispatchStep(s, c);
      case Fork(c, t) => ForkStep(s, c, t);
      case Exorcise(c) => ExorciseStep(s, c);
      case WakeOne(w) => WakeStep(s, w);
      case Enqueue(i) => EnqueueStep(s, i);
      case GoIdle(_) | Unidle(_) | ReadCpu(_) => SameLists(s, states[k + 1]);
      case _ => MigrationStep(s, a);
    }
  }

  /** And each thread is at exactly one place. */
  lemma AtOnePlace(states: seq<State>, acts: seq<Action>, k: nat, t: Thread) returns (p: Whereabouts)
    requires IsRun(states, acts) && k < |states| && t in states[k].tcpu
    ensures forall q :: At(states[k], t, q) <==> q == p
  {
    hide Apply;
    hide Enabled;
    hide On;
    hide L;
    RunInv(states, acts, k);
    var s := states[k];
    hide At;
    if Somewhere(s.lists, t) {
      var l :| On(s.lists, t, l);
      PlaceIs(s, t, l);
      p := PlaceOn(l);
    } else {
      NowhereIs(s, t);
      p := Running(s.tcpu[t]);
    }
  }

  // ---- the order on wait channels ----

  lemma TailAdded(lists: Lists, l: Loc, t: Thread, l': Loc)
    ensures L(AddTail(lists, l, t), l') == if l' == l then L(lists, l) + [t] else L(lists, l')
  {
  }

  lemma HeadAdded(lists: Lists, l: Loc, t: Thread, l': Loc)
    ensures L(AddHead(lists, l, t), l') == if l' == l then [t] + L(lists, l) else L(lists, l')
  {
  }

  lemma Dropped(lists: Lists, l: Loc, k: nat, l': Loc)
    requires k < |L(lists, l)|
    ensures L(Drop(lists, l, k), l') == if l' == l then L(lists, l)[..k] + L(lists, l)[k + 1..] else L(lists, l')
    ensures l' == l && k == 0 ==> L(Drop(lists, l, k), l') == L(lists, l)[1..]
    ensures l' == l && k == |L(lists, l)| - 1 ==> L(Drop(lists, l, k), l') == L(lists, l)[..k]
  {
  }

  /** What an action does to list l: nothing, or one thread more at an end, or one less. */
  ghost predicate ListChange(s: State, a: Action, l: Loc, q: seq<Thread>, q': seq<Thread>)
    requires Enabled(s, a) && q == L(s.lists, l)
  {
    match a
    case Yield(c) => q' == if l == RunQueue(s.tcpu[s.cur[c]]) then q + [s.cur[c]] else q
    case Sleep(c, w) => q' == if l == WaitChannel(w) then q + [s.cur[c]] else q
    case Exit(c) => q' == if l == Zombies(c) then q + [s.cur[c]] else q
    case Dispatch(c) => q' == if l == RunQueue(c) then q[1..] else q
    case Fork(c, t) => q' == if l == Transit then q + [t] else q
    case Exorcise(c) => q' == if l == Zombies(c) then q[1..] else q
    case WakeOne(w) =>
      var t := L(s.lists, WaitChannel(w))[0];
      q' == if l == WaitChannel(w) then q[1..] else if l == Transit then q + [t] else q
    case Enqueue(k) =>
      var t := L(s.lists, Transit)[k];
      q' == if l == Transit then q[..k] + q[k + 1..] else if l == RunQueue(s.dest[t]) then q + [t] else q
    case MigTake(c) =>
      var m := L(s.lists, RunQueue(c));
      q' == if l == RunQueue(c) then q[..|q| - 1] else if l == Victims(c) then [m[|m| - 1]] + q else q
    case MigPlace(c) =>
      var t := L(s.lists, Victims(c))[0];
      q' == if l == Victims(c) then (if t == s.cur[c] then q[1..] + [t] else q[1..])
            else if t != s.cur[c] && l == RunQueue(s.pc[c].phase.next) then q + [t] else q
    case MigPutBack(c) =>
      var t := L(s.lists, Victims(c))[0];
      q' == if l == Victims(c) then q[1..] else if l == RunQueue(c) then q + [t] else q
    case _ => q' == q
  }

  lemma ListStep(s: State, a: Action, l: Loc)
    requires Enabled(s, a)
    ensures ListChange(s, a, l, L(s.lists, l), L(Apply(s, a).lists, l))
  {
    hide L;
    hide Apply;
    hide ListChange;
    if IsMigration(a) {
      MigListStep(s, a, l);
    } else {
      OwnListStep(s, a, l);
    }
  }

  lemma OwnListStep(s: State, a: Action, l: Loc)
    requires Enabled(s, a) && !IsMigration(a)
    ensures ListChange(s, a, l, L(s.lists, l), L(Apply(s, a).lists, l))
  {
    hide L;
    hide AddTail;
    hide AddHead;
    hide Drop;
    hide Move;
    match a {
      case Yield(c) => TailAdded(s.lists, RunQueue(s.tcpu[s.cur[c]]), s.cur[c], l);
      case Sleep(c, w) => TailAdded(s.lists, WaitChannel(w), s.cur[c], l);
      case Exit(c) => TailAdded(s.lists, Zombies(c), s.cur[c], l);
      case Dispatch(c) => Dropped(s.lists, RunQueue(c), 0, l);
      case Fork(c, t) => TailAdded(s.lists, Transit, t, l);
      case Exorcise(c) => Dropped(s.lists, Zombies(c), 0, l);
      case WakeOne(w) => MoveStep(s.lists, WaitChannel(w), 0, Transit, l);
      case Enqueue(k) => MoveStep(s.lists, Transit, k, RunQueue(s.dest[L(s.lists, Transit)[k]]), l);
      case _ =>
    }
  }

  lemma MigListStep(s: State, a: Action, l: Loc)
    requires Enabled(s, a) && IsMigration(a)
    ensures ListChange(s, a, l, L(s.lists, l), L(Apply(s, a).lists, l))
  {
    hide L;
    hide Move;
    hide Drop;
    hide AddHead;
    hide Share;
    if a.MigTake? {
      TakeListStep(s, a.c, l);
    } else if a.MigPlace? {
      PlaceListStep(s, a.c, l);
    } else if a.MigPutBack? {
      MoveStep(s.lists, Victims(a.c), 0, RunQueue(a.c), l);
    }
  }

  lemma TakeListStep(s: State, c: Cpu, l: Loc)
    requires Enabled(s, MigTake(c))
    ensures ListChange(s, MigTake(c), l, L(s.lists, l), L(Apply(s, MigTake(c)).lists, l))
  {
    hide L;
    hide AddHead;
    hide Drop;
    var q := L(s.lists, RunQueue(c));
    Dropped(s.lists, RunQueue(c), |q| - 1, l);
    HeadAdded(Drop(s.lists, RunQueue(c), |q| - 1), Victims(c), q[|q| - 1], l);
  }

  lemma PlaceListStep(s: State, c: Cpu, l: Loc)
    requires Enabled(s, MigPlace(c))
    ensures ListChange(s, MigPlace(c), l, L(s.lists, l), L(Apply(s, MigPlace(c)).lists, l))
  {
    hide L;
    hide Move;
    if L(s.lists, Victims(c))[0] == s.cur[c] {
      MoveStep(s.lists, Victims(c), 0, Victims(c), l);
    } else {
      MoveStep(s.lists, Victims(c), 0, RunQueue(s.pc[c].phase.next), l);
    }
  }

  /** So a wait channel only grows at the tail and shrinks at the head. */
  lemma ChannelStep(s: State, a: Action, w: nat)
    requires Enabled(s, a)
    ensures var q, q' := L(s.lists, WaitChannel(w)), L(Apply(s, a).lists, WaitChannel(w));
            if a.Sleep? && a.w == w then a.c < |s.cur| && q' == q + [s.cur[a.c]]
            else if a == WakeOne(w) then q != [] && q' == q[1..]
            else q' == q
  {
    hide L;
    hide Apply;
    ListStep(s, a, WaitChannel(w));
  }

  lemma TransitStep(s: State, a: Action)
    requires Enabled(s, a)
    ensures var q, q' := L(s.lists, Transit), L(Apply(s, a).lists, Transit);
            if a.Enqueue? then a.k < |q| && q' == q[..a.k] + q[a.k + 1..] else q <= q'
  {
    hide L;
    hide Apply;
    ListStep(s, a, Transit);
  }

  lemma MoveStep(lists: Lists, from_: Loc, k: nat, to_: Loc, l: Loc)
    requires k < |L(lists, from_)|
    ensures var q, q' := L(lists, l), L(Move(lists, from_, k, to_), l);
            && (l != from_ && l != to_ ==> q' == q)
            && (l == to_ != from_ ==> q' == q + [L(lists, from_)[k]])
            && (l == from_ != to_ ==> q' == q[..k] + q[k + 1..] && (k == 0 ==> q' == q[1..]))
            && (l == from_ == to_ && k == 0 ==> q' == q[1..] + [q[0]])
  {
    hide L;
    hide Drop;
    hide AddTail;
    Dropped(lists, from_, k, l);
    Dropped(lists, from_, k, to_);
    TailAdded(Drop(lists, from_, k), to_, L(lists, from_)[k], l);
  }

  /** The threads that went to sleep on channel w, in order. */
  ghost function SleptOn(states: seq<State>, acts: seq<Action>, w: nat): seq<Thread>
    requires |states| > |acts|
  {
    if acts == [] then []
    else
      var n := |acts| - 1;
      SleptOn(states, acts[..n], w)
      + if acts[n].Sleep? && acts[n].w == w && acts[n].c < |states[n].cur| then [states[n].cur[acts[n].c]] else []
  }

  /** How many wakeups there were on it. */
  function WakesOn(acts: seq<Action>, w: nat): nat {
    if acts == [] then 0 else WakesOn(acts[..|acts| - 1], w) + if acts[|acts| - 1] == WakeOne(w) then 1 else 0
  }

  /**
   * In every run a wait channel holds exactly the threads that went to sleep on it and were not woken yet, and those
   * are the last ones: threads wake in the order in which they went to sleep.
   */
  lemma {:induction false} ChannelIsFifo(states: seq<State>, acts: seq<Action>, k: nat, w: nat)
    requires IsRun(states, acts) && k < |states|
    ensures WakesOn(acts[..k], w) <= |SleptOn(states, acts[..k], w)|
    ensures L(states[k].lists, WaitChannel(w)) == SleptOn(states, acts[..k], w)[WakesOn(acts[..k], w)..]
  {
    hide Apply;
    hide Enabled;
    hide L;
    if k > 0 {
      ChannelIsFifo(states, acts, k - 1, w);
      ChannelStep(states[k - 1], acts[k - 1], w);
      assert acts[..k][..k - 1] == acts[..k - 1];
    }
  }

  /** A thread that sleeps joins the tail of its channel, and stays on it until a wakeup finds it at the head. */
  lemma SleeperStays(states: seq<State>, acts: seq<Action>, k: nat, w: nat, t: Thread)
    requires IsRun(states, acts) && k < |acts|
    ensures acts[k].Sleep? && acts[k].w == w ==>
              && acts[k].c < |states[k].cur|
              && L(states[k + 1].lists, WaitChannel(w)) ==
                   L(states[k].lists, WaitChannel(w)) + [states[k].cur[acts[k].c]]
    ensures On(states[k].lists, t, WaitChannel(w)) ==>
              (On(states[k + 1].lists, t, WaitChannel(w)) <==>
                 !(acts[k] == WakeOne(w) && L(states[k].lists, WaitChannel(w))[0] == t))
  {
    hide Inv;
    hide Apply;
    RunInv(states, acts, k);
    UniqueInv(states[k]);
    ChannelStep(states[k], acts[k], w);
    HeadLeaves(states[k].lists, WaitChannel(w), t);
    hide Unique;
    hide L;
  }

  /** Where a list has lost its head, the thread at the head is not there any more. */
  lemma HeadLeaves(lists: Lists, l: Loc, t: Thread)
    requires Unique(lists)
    ensures L(lists, l) != [] ==> (t in L(lists, l)[1..] <==> t in L(lists, l) && t != L(lists, l)[0])
  {
    var q := L(lists, l);
    assert NoDup(q);
    if q != [] {
      assert q[..0] + q[0 + 1..] == q[1..];
      DropSeq(q, q[1..], 0);
    }
  }

  /** A wakeup makes the thread ready that has slept longest, and leaves the others asleep. */
  lemma LongestSleeperWakes(states: seq<State>, acts: seq<Action>, k: nat, w: nat)
    requires IsRun(states, acts) && k < |acts| && acts[k] == WakeOne(w)
    ensures var n := WakesOn(acts[..k], w);
            && n < |SleptOn(states, acts[..k], w)|
            && Goes(states[k], states[k + 1], SleptOn(states, acts[..k], w)[n], Sleeping(w), Ready)
  {
    hide Inv;
    hide Goes;
    hide L;
    hide Move;
    ChannelIsFifo(states, acts, k, w);
    RunInv(states, acts, k);
    WakesHead(states[k], w);
  }

  // ---- from there to a CPU ----

  /** A thread on its way to a run queue is there until an Enqueue puts it at the tail of the one of its own CPU. */
  lemma TransitEnds(states: seq<State>, acts: seq<Action>, k: nat, t: Thread)
    requires IsRun(states, acts) && k < |acts| && On(states[k].lists, t, Transit)
    ensures t in states[k].tcpu && t in states[k + 1].tcpu && states[k + 1].tcpu[t] == states[k].tcpu[t]
    ensures if Enqueues(states[k], acts[k], t) then
              && !On(states[k + 1].lists, t, Transit)
              && var l := RunQueue(states[k].tcpu[t]); L(states[k + 1].lists, l) == L(states[k].lists, l) + [t]
            else On(states[k + 1].lists, t, Transit)
  {
    hide Inv;
    hide Apply;
    hide L;
    hide Unique;
    RunInv(states, acts, k);
    var s, a := states[k], acts[k];
    ThreadKnown(s, t, Transit);
    UniqueInv(s);
    ThreadsConserved(states, acts, k);
    InTransit(s, a, states[k + 1], t);
    StepFrame(states, acts, k, t);
    NotVictim(s, t);
    LeavesTransit(s, a, t);
  }

  lemma LeavesTransit(s: State, a: Action, t: Thread)
    requires Enabled(s, a) && Unique(s.lists) && On(s.lists, t, Transit) && t in s.tcpu
    requires t in s.dest ==> s.dest[t] == s.tcpu[t]
    ensures On(Apply(s, a).lists, t, Transit) <==> !Enqueues(s, a, t)
    ensures Enqueues(s, a, t) ==>
              var l := RunQueue(s.tcpu[t]); L(Apply(s, a).lists, l) == L(s.lists, l) + [t]
  {
    hide Apply;
    assert NoDup(L(s.lists, Transit));
    hide Unique;
    hide L;
    TransitStep(s, a);
    if a.Enqueue? {
      var q := L(s.lists, Transit);
      DropSeq(q, q[..a.k] + q[a.k + 1..], a.k);
      ListStep(s, a, RunQueue(s.tcpu[t]));
    }
  }

  predicate Enqueues(s: State, a: Action, t: Thread) {
    a.Enqueue? && a.k < |L(s.lists, Transit)| && L(s.lists, Transit)[a.k] == t
  }

  /** Once its t_cpu has been read, only the lock of that CPU's run queue can keep it waiting. */
  lemma ReadThenEnqueue(states: seq<State>, acts: seq<Action>, k: nat, i: nat)
    requires IsRun(states, acts) && k < |acts| && acts[k] == ReadCpu(i)
    ensures var s' := states[k + 1];
            && L(s'.lists, Transit) == L(states[k].lists, Transit) && i < |L(s'.lists, Transit)|
            && var t := L(s'.lists, Transit)[i];
               t in s'.tcpu && (Unlocked(s', s'.tcpu[t]) ==> Enabled(s', Enqueue(i)))
  {
    hide Inv;
    hide L;
    RunInv(states, acts, k + 1);
    var s' := states[k + 1];
    OnList(s'.lists, Transit, i);
    ThreadKnown(s', L(s'.lists, Transit)[i], Transit);
  }

  lemma OnList(lists: Lists, l: Loc, i: nat)
    requires i < |L(lists, l)|
    ensures On(lists, L(lists, l)[i], l)
  {
  }

  /** That lock is held on only from choosing what to do with the current thread to finding the next, or none. */
  lemma SwitchReleases(states: seq<State>, acts: seq<Action>, k: nat, c: Cpu)
    requires IsRun(states, acts) && k < |acts| && c < |states[k].pc| && states[k].pc[c] == Switching
    ensures Enabled(states[k], Dispatch(c)) || Enabled(states[k], GoIdle(c))
    ensures if acts[k] == Dispatch(c) || acts[k] == GoIdle(c) then Unlocked(states[k + 1], c)
            else c < |states[k + 1].pc| && states[k + 1].pc[c] == Switching
  {
    hide Apply;
    NeverTwice(states, acts, k, c, c);
    SwitchStep(states[k], acts[k], c);
  }

  lemma SwitchStep(s: State, a: Action, c: Cpu)
    requires Enabled(s, a) && c < |s.pc| == |s.cur| && s.pc[c] == Switching
    ensures if a == Dispatch(c) || a == GoIdle(c) then Unlocked(Apply(s, a), c)
            else c < |Apply(s, a).pc| && Apply(s, a).pc[c] == Switching
  {
    hide L;
    hide Drop;
    hide Move;
    hide Share;
    hide AddTail;
    hide AddHead;
  }

  /** And an idle CPU goes back to looking for a thread when it is interrupted. */
  lemma UnidleLooks(states: seq<State>, acts: seq<Action>, k: nat, c: Cpu)
    requires IsRun(states, acts) && k < |acts| && acts[k] == Unidle(c)
    ensures c < |states[k + 1].pc| && states[k + 1].pc[c] == Switching && c !in states[k + 1].ipi
    ensures states[k + 1].lists == states[k].lists
  {
  }

  lemma NotVictim(s: State, t: Thread)
    requires Inv(s) && On(s.lists, t, Transit)
    ensures forall c :: !On(s.lists, t, Victims(c)) && !On(s.lists, t, Zombies(c))
  {
    hide On;
  }

  lemma InTransit(s: State, a: Action, s': State, t: Thread)
    requires Inv(s) && Enabled(s, a) && s' == Apply(s, a) && On(s.lists, t, Transit) && t in s.tcpu
    requires s'.tcpu.Keys == if a.Fork? then s.tcpu.Keys + {a.t}
                             else if a.Exorcise? then s.tcpu.Keys - {L(s.lists, Zombies(a.c))[0]} else s.tcpu.Keys
    ensures t in s'.tcpu
  {
    NotVictim(s, t);
    hide Inv;
    hide Apply;
    if a.Exorcise? {
      assert On(s.lists, L(s.lists, Zombies(a.c))[0], Zombies(a.c));
    }
  }

  /**
   * A run queue is served in order: a thread comes in at the tail; the CPU runs the one at the head; and only the
   * CPU's own migration takes others, from the tail.
   */
  lemma RunQueueInOrder(states: seq<State>, acts: seq<Action>, k: nat, d: Cpu)
    requires IsRun(states, acts) && k < |acts|
    ensures var q, q' := L(states[k].lists, RunQueue(d)), L(states[k + 1].lists, RunQueue(d));
            if acts[k] == Dispatch(d) then
              q != [] && q' == q[1..] && d < |states[k + 1].cur| && states[k + 1].cur[d] == q[0]
            else if acts[k] == MigTake(d) then q != [] && q' == q[..|q| - 1]
            else q' == q || (|q'| == |q| + 1 && q <= q')
  {
    ListStep(states[k], acts[k], RunQueue(d));
    hide L;
    hide Drop;
    hide Move;
    hide AddTail;
    hide AddHead;
    if acts[k] == Dispatch(d) {
      assert states[k + 1].cur == states[k].cur[d := L(states[k].lists, RunQueue(d))[0]];
    }
  }

  /** A new thread starts on the CPU of the thread that forked it. */
  lemma ForkedOnOwnCpu(states: seq<State>, acts: seq<Action>, k: nat, c: Cpu, t: Thread)
    requires IsRun(states, acts) && k < |acts| && acts[k] == Fork(c, t)
    ensures t in states[k + 1].tcpu && states[k + 1].tcpu[t] == c
    ensures L(states[k + 1].lists, Transit) == L(states[k].lists, Transit) + [t]
  {
    hide L;
    hide AddTail;
    NeverTwice(states, acts, k, c, c);
    ListStep(states[k], acts[k], Transit);
  }
}
