/**
 * Threads, run queues, wait channels and migration (kern/thread/thread.c) as interleaved atomic steps: one step
 * per region protected by a spinlock, on any number of CPUs and threads.
 */
module Threads {
  import opened Common

  type Cpu = nat
  type Thread = nat

  /** The lists a thread can be on; Transit stands for the local variables of the code moving it. */
  datatype Loc = RunQueue(c: Cpu) | WaitChannel(w: nat) | Zombies(c: Cpu) | Victims(c: Cpu) | Transit

  type Lists = map<Loc, seq<Thread>>

  /**
   * What a CPU is doing: running its current thread; inside thread_switch with its run queue locked; idling
   * there with the lock released; or in thread_consider_migration, called from the clock interrupt.
   */
  datatype Pc = Run | Switching | Idle | Migrating(phase: Phase, wasIdle: bool)

  datatype Phase = Counting(next: Cpu, mine: nat, total: nat)
                 | Taking(n: nat, toSend: nat, share: nat)
                 | Placing(next: Cpu, toSend: nat, share: nat)
                 | PuttingBack

  datatype State = State(
    lists: Lists,
    cur: seq<Thread>,         // c_curthread of each CPU
    pc: seq<Pc>,
    tcpu: map<Thread, Cpu>,   // t_cpu of each existing thread
    saved: set<Thread>,       // threads whose context is in t_context
    dest: map<Thread, Cpu>,   // the t_cpu read by thread_make_runnable, for threads in transit
    ipi: set<Cpu>)            // CPUs with an interrupt on the way that ends their cpu_idle

  function L(lists: Lists, l: Loc): seq<Thread> {
    if l in lists then lists[l] else []
  }

  predicate On(lists: Lists, t: Thread, l: Loc) {
    t in L(lists, l)
  }

  ghost predicate Somewhere(lists: Lists, t: Thread) {
    exists l :: On(lists, t, l)
  }

  /** No thread is on two lists, or twice on one: each has a single list node. */
  ghost predicate Unique(lists: Lists) {
    && (forall l :: NoDup(L(lists, l)))
    && (forall t, l, l' | On(lists, t, l) && On(lists, t, l') :: l == l')
  }

  /** Remove the thread at position k of a list, add one at the tail, add one at the head. */
  function Drop(lists: Lists, l: Loc, k: nat): Lists
    requires k < |L(lists, l)|
  {
    lists[l := L(lists, l)[..k] + L(lists, l)[k + 1..]]
  }

  function AddTail(lists: Lists, l: Loc, t: Thread): Lists {
    lists[l := L(lists, l) + [t]]
  }

  function AddHead(lists: Lists, l: Loc, t: Thread): Lists {
    lists[l := [t] + L(lists, l)]
  }

  ghost predicate Removed(lists: Lists, lists': Lists, x: Thread) {
    forall t: Thread, l :: On(lists', t, l) <==> On(lists, t, l) && t != x
  }

  ghost predicate Added(lists: Lists, lists': Lists, x: Thread, to_: Loc) {
    forall t: Thread, l :: On(lists', t, l) <==> On(lists, t, l) || (t == x && l == to_)
  }

  ghost predicate Moved(lists: Lists, lists': Lists, x: Thread, to_: Loc) {
    forall t: Thread, l :: On(lists', t, l) <==> if t == x then l == to_ else On(lists, t, l)
  }

  lemma DropSeq(xs: seq<Thread>, xs': seq<Thread>, k: nat)
    requires k < |xs| && xs' == xs[..k] + xs[k + 1..] && NoDup(xs)
    ensures NoDup(xs') && forall t: Thread :: t in xs' <==> t in xs && t != xs[k]
  {
    assert forall i | 0 <= i < |xs'| :: xs'[i] == if i < k then xs[i] else xs[i + 1];
    forall t | t in xs && t != xs[k]
      ensures t in xs'
    {
      var i :| 0 <= i < |xs| && xs[i] == t;
      assert t == if i < k then xs'[i] else xs'[i - 1];
    }
  }

  lemma DropOn(lists: Lists, lists': Lists, l: Loc, k: nat)
    requires Unique(lists) && k < |L(lists, l)| && lists' == Drop(lists, l, k)
    ensures Unique(lists') && On(lists, L(lists, l)[k], l) && Removed(lists, lists', L(lists, l)[k])
  {
    var x := L(lists, l)[k];
    DropSeq(L(lists, l), L(lists', l), k);
    assert On(lists, x, l);
    forall t: Thread, l'
      ensures On(lists', t, l') <==> On(lists, t, l') && t != x
    {
      if l' == l {
        assert t in L(lists', l) <==> t in L(lists, l) && t != x;
      } else {
        assert L(lists', l') == L(lists, l');
        assert On(lists, t, l') ==> t != x;
      }
    }
    forall l'
      ensures NoDup(L(lists', l'))
    {
      assert NoDup(L(lists, l'));
    }
  }

  lemma AddOn(lists: Lists, lists': Lists, l: Loc, t: Thread)
    requires Unique(lists) && (forall l' :: !On(lists, t, l'))
    requires lists' == AddTail(lists, l, t) || lists' == AddHead(lists, l, t)
    ensures Unique(lists') && Added(lists, lists', t, l)
  {
    assert !On(lists, t, l);
    assert NoDup(L(lists, l));
    assert forall l' | l' != l :: L(lists', l') == L(lists, l');
    forall t', l'
      ensures On(lists', t', l') <==> On(lists, t', l') || (t' == t && l' == l)
    {
    }
  }

  /** Move the thread at position k of one list to the tail of another. */
  function Move(lists: Lists, from_: Loc, k: nat, to_: Loc): Lists
    requires k < |L(lists, from_)|
  {
    AddTail(Drop(lists, from_, k), to_, L(lists, from_)[k])
  }

  lemma MoveOn(lists: Lists, lists': Lists, from_: Loc, k: nat, to_: Loc)
    requires Unique(lists) && k < |L(lists, from_)|
    requires lists' == Move(lists, from_, k, to_)
          || lists' == AddHead(Drop(lists, from_, k), to_, L(lists, from_)[k])
    ensures Unique(lists') && On(lists, L(lists, from_)[k], from_) && Moved(lists, lists', L(lists, from_)[k], to_)
    ensures forall l | l != from_ && l != to_ :: L(lists', l) == L(lists, l)
    ensures from_ != to_ ==> |L(lists', from_)| == |L(lists, from_)| - 1 && |L(lists', to_)| == |L(lists, to_)| + 1
    ensures from_ == to_ ==> |L(lists', to_)| == |L(lists, to_)|
  {
    var mid := Drop(lists, from_, k);
    DropOn(lists, mid, from_, k);
    AddOn(mid, lists', to_, L(lists, from_)[k]);
  }

  /** The CPU is executing its current thread, perhaps interrupted by the migration code. */
  predicate Executing(pc: Pc) {
    pc == Run || (pc.Migrating? && !pc.wasIdle)
  }

  /** What holds of a CPU inside thread_consider_migration, whatever the others do to its run queue. */
  predicate PhaseOk(s: State, c: Cpu)
    requires c < |s.pc|
  {
    match s.pc[c]
    case Migrating(Counting(next, mine, total), _) =>
      next <= |s.pc| && (if c < next then mine <= |L(s.lists, RunQueue(c))| && mine <= total else mine == 0)
    case Migrating(Taking(n, toSend, share), _) =>
      n <= |L(s.lists, RunQueue(c))| && |L(s.lists, Victims(c))| + n == toSend
    case Migrating(Placing(next, toSend, share), _) =>
      next <= |s.pc| && toSend <= |L(s.lists, Victims(c))|
    case _ => true
  }

  predicate UsesVictims(pc: Pc) {
    pc.Migrating? && !pc.phase.Counting?
  }

  /** A thread on a per-CPU list belongs to that CPU. */
  ghost predicate HomeOk(lists: Lists, tcpu: map<Thread, Cpu>) {
    forall t: Thread, l | On(lists, t, l) :: t in tcpu && (l.RunQueue? || l.Zombies? || l.Victims? ==> tcpu[t] == l.c)
  }

  ghost predicate VictimsOk(lists: Lists, pc: seq<Pc>) {
    forall t: Thread, c: Cpu | On(lists, t, Victims(c)) :: c < |pc| && UsesVictims(pc[c])
  }

  /** thread_make_runnable goes to the thread's own CPU, though it reads t_cpu before taking the lock. */
  ghost predicate DestOk(lists: Lists, tcpu: map<Thread, Cpu>, dest: map<Thread, Cpu>) {
    forall t: Thread | t in dest :: On(lists, t, Transit) && t in tcpu && dest[t] == tcpu[t]
  }

  ghost predicate CurOk(s: State) {
    && |s.cur| == |s.pc|
    && (forall t: Thread | t in s.tcpu :: s.tcpu[t] < |s.pc|)
    && (forall c: Cpu | c < |s.pc| :: s.cur[c] in s.tcpu && s.tcpu[s.cur[c]] == c)
  }

  ghost predicate PhasesOk(s: State) {
    forall c: Cpu | c < |s.pc| :: PhaseOk(s, c)
  }

  /** The thread a CPU is executing is on no list. */
  ghost predicate ExecOk(lists: Lists, cur: seq<Thread>, pc: seq<Pc>) {
    |cur| == |pc| && forall c: Cpu, l | c < |pc| && Executing(pc[c]) :: !On(lists, cur[c], l)
  }

  /** Exactly the current threads have no saved context. */
  ghost predicate SavedOk(s: State) {
    forall t: Thread :: t in s.saved <==> t in s.tcpu && t !in s.cur
  }

  /** No thread is lost: one that is not current, or is current and not executing, is on a list. */
  ghost predicate PlacedOk(lists: Lists, saved: set<Thread>) {
    forall t: Thread | t in saved :: Somewhere(lists, t)
  }

  ghost predicate CurPlacedOk(lists: Lists, cur: seq<Thread>, pc: seq<Pc>) {
    |cur| == |pc| && forall c: Cpu | c < |pc| && !Executing(pc[c]) :: Somewhere(lists, cur[c])
  }

  /** No lost wakeup: an idle CPU with a thread to run has an interrupt on the way. */
  ghost predicate IpiOk(s: State) {
    forall c: Cpu | c < |s.pc| && s.pc[c] == Idle && L(s.lists, RunQueue(c)) != [] :: c in s.ipi
  }

  ghost predicate Inv(s: State) {
    && Unique(s.lists) && HomeOk(s.lists, s.tcpu) && VictimsOk(s.lists, s.pc) && DestOk(s.lists, s.tcpu, s.dest)
    && CurOk(s) && PhasesOk(s) && ExecOk(s.lists, s.cur, s.pc) && SavedOk(s)
    && PlacedOk(s.lists, s.saved) && CurPlacedOk(s.lists, s.cur, s.pc) && IpiOk(s)
  }

  /** Every CPU runs its own boot thread and every list is empty. */
  ghost predicate Init(s: State) {
    && |s.cur| == |s.pc| > 0 && (forall c: Cpu | c < |s.pc| :: s.cur[c] == c && s.pc[c] == Run)
    && (forall l :: L(s.lists, l) == []) && s.saved == {} && s.dest == map[] && s.ipi == {}
    && (forall t: Thread :: t in s.tcpu <==> t < |s.pc|) && (forall t | t in s.tcpu :: s.tcpu[t] == t)
  }

  lemma InitInv(s: State)
    requires Init(s)
    ensures Inv(s)
  {
    forall t: Thread | t in s.tcpu
      ensures t in s.cur
    {
      assert s.cur[t] == t;
    }
  }

  datatype Action =
    | Yield(c: Cpu) | Sleep(c: Cpu, w: nat) | Exit(c: Cpu)         // thread_switch up to placing the current thread
    | Dispatch(c: Cpu) | GoIdle(c: Cpu) | Unidle(c: Cpu)           // its loop looking for the next thread
    | Fork(c: Cpu, t: Thread) | Exorcise(c: Cpu)
    | WakeOne(w: nat) | ReadCpu(k: nat) | Enqueue(k: nat)          // wchan_wakeone, thread_make_runnable
    | MigStart(c: Cpu) | MigCount(c: Cpu) | MigDecide(c: Cpu) | MigTake(c: Cpu) | MigTaken(c: Cpu)
    | MigPlace(c: Cpu) | MigNext(c: Cpu) | MigPlaced(c: Cpu) | MigPutBack(c: Cpu) | MigEnd(c: Cpu)

  /** The run queue lock of CPU c is not held between steps: only thread_switch keeps it that long. */
  predicate Unlocked(s: State, c: Cpu) {
    c < |s.pc| && s.pc[c] != Switching
  }

  predicate InPhase(s: State, c: Cpu) {
    c < |s.pc| == |s.cur| && s.pc[c].Migrating?
  }

  function Share(total: nat, cpus: nat): nat
    requires cpus > 0
  {
    (total + cpus - 1) / cpus
  }

  /** One CPU's share of the threads: that many for each CPU are enough, and one less for each is not. */
  predicate IsShare(share: nat, total: nat, cpus: nat) {
    total <= share * cpus && (share > 0 ==> (share - 1) * cpus < total)
  }

  /** DIVROUNDUP gives the share, and a CPU has less than one exactly when such queues could not hold all threads. */
  lemma ShareIs(total: nat, cpus: nat, mine: nat)
    requires cpus > 0
    ensures IsShare(Share(total, cpus), total, cpus)
    ensures mine < Share(total, cpus) <==> mine * cpus < total
  {
    var share := Share(total, cpus);
    var r := (total + cpus - 1) % cpus;
    assert share * cpus + r == total + cpus - 1;
    assert (share - 1) * cpus == share * cpus - cpus;
    if mine < share {
      Times(mine, share - 1, cpus);
    } else {
      Times(share, mine, cpus);
    }
  }

  lemma Times(a: int, b: int, n: nat)
    requires a <= b
    ensures a * n <= b * n
  {
    assert b * n - a * n == (b - a) * n;
  }

  predicate Enabled(s: State, a: Action) {
    match a
    case Yield(c) => c < |s.pc| == |s.cur| && s.pc[c] == Run && s.cur[c] in s.tcpu && L(s.lists, RunQueue(c)) != []
    case Sleep(c, _) => c < |s.pc| == |s.cur| && s.pc[c] == Run
    case Exit(c) => c < |s.pc| == |s.cur| && s.pc[c] == Run
    case Dispatch(c) => c < |s.pc| == |s.cur| && s.pc[c] == Switching && L(s.lists, RunQueue(c)) != []
    case GoIdle(c) => c < |s.pc| == |s.cur| && s.pc[c] == Switching && L(s.lists, RunQueue(c)) == []
    case Unidle(c) => c < |s.pc| == |s.cur| && s.pc[c] == Idle
    case Fork(c, t) => c < |s.pc| == |s.cur| && s.pc[c] == Run && s.cur[c] in s.tcpu && t !in s.tcpu
    case Exorcise(c) => c < |s.pc| == |s.cur| && s.pc[c] == Run && L(s.lists, Zombies(c)) != []
    case WakeOne(w) => L(s.lists, WaitChannel(w)) != []
    case ReadCpu(k) =>
      k < |L(s.lists, Transit)| && L(s.lists, Transit)[k] in s.tcpu && L(s.lists, Transit)[k] !in s.dest
    case Enqueue(k) => k < |L(s.lists, Transit)| && L(s.lists, Transit)[k] in s.dest
                       && Unlocked(s, s.dest[L(s.lists, Transit)[k]])
    case MigStart(c) => c < |s.pc| == |s.cur| && (s.pc[c] == Run || s.pc[c] == Idle)
    case MigCount(c) => InPhase(s, c) && s.pc[c].phase.Counting? && s.pc[c].phase.next < |s.pc|
                        && Unlocked(s, s.pc[c].phase.next)
    case MigDecide(c) => InPhase(s, c) && s.pc[c].phase.Counting? && s.pc[c].phase.next >= |s.pc|
    case MigTake(c) => InPhase(s, c) && s.pc[c].phase.Taking? && s.pc[c].phase.n > 0 && L(s.lists, RunQueue(c)) != []
    case MigTaken(c) => InPhase(s, c) && s.pc[c].phase.Taking? && s.pc[c].phase.n == 0
    case MigPlace(c) => InPhase(s, c) && s.pc[c].phase.Placing? && s.pc[c].phase.next != c && s.pc[c].phase.toSend > 0
                        && Unlocked(s, s.pc[c].phase.next) && L(s.lists, Victims(c)) != []
                        && |L(s.lists, RunQueue(s.pc[c].phase.next))| < s.pc[c].phase.share
    case MigNext(c) =>
      InPhase(s, c) && s.pc[c].phase.Placing? && s.pc[c].phase.next < |s.pc| && s.pc[c].phase.toSend > 0
                       && (s.pc[c].phase.next == c || |L(s.lists, RunQueue(s.pc[c].phase.next))| >= s.pc[c].phase.share)
    case MigPlaced(c) => InPhase(s, c) && s.pc[c].phase.Placing?
                         && (s.pc[c].phase.next >= |s.pc| || s.pc[c].phase.toSend == 0)
    case MigPutBack(c) => InPhase(s, c) && s.pc[c].phase.PuttingBack? && L(s.lists, Victims(c)) != []
    case MigEnd(c) => InPhase(s, c) && s.pc[c].phase.PuttingBack? && L(s.lists, Victims(c)) == []
  }

  /** ipi_send of IPI_UNIDLE when c_isidle is set. */
  function Kick(s: State, d: Cpu): set<Cpu>
    requires d < |s.pc|
  {
    if s.pc[d] == Idle || (s.pc[d].Migrating? && s.pc[d].wasIdle) then s.ipi + {d} else s.ipi
  }

  /** The clock interrupt returns; if it came while idling, cpu_idle is over. */
  function Return(s: State, c: Cpu): State
    requires InPhase(s, c)
  {
    if s.pc[c].wasIdle then s.(pc := s.pc[c := Idle], ipi := s.ipi + {c}) else s.(pc := s.pc[c := Run])
  }

  function Place(s: State, c: Cpu, l: Loc): State
    requires c < |s.pc| == |s.cur|
  {
    s.(lists := AddTail(s.lists, l, s.cur[c]), pc := s.pc[c := Switching])
  }

  function InPhaseOf(s: State, c: Cpu, phase: Phase): State
    requires InPhase(s, c)
  {
    s.(pc := s.pc[c := Migrating(phase, s.pc[c].wasIdle)])
  }

  predicate IsMigration(a: Action) {
    a.MigStart? || a.MigCount? || a.MigDecide? || a.MigTake? || a.MigTaken? || a.MigPlace? || a.MigNext? || a.MigPlaced?
    || a.MigPutBack? || a.MigEnd?
  }

  /** One region of thread_consider_migration. */
  function ApplyMigration(s: State, a: Action): State
    requires IsMigration(a) && Enabled(s, a)
  {
    match a
    case MigStart(c) => s.(pc := s.pc[c := Migrating(Counting(0, 0, 0), s.pc[c] == Idle)])
    case MigCount(c) =>
      var ph := s.pc[c].phase;
      var n := |L(s.lists, RunQueue(ph.next))|;
      InPhaseOf(s, c, Counting(ph.next + 1, if ph.next == c then n else ph.mine, ph.total + n))
    case MigDecide(c) =>
      var ph := s.pc[c].phase;
      var share := Share(ph.total, |s.pc|);
      if ph.mine < share then Return(s, c)
      else InPhaseOf(s, c, Taking(ph.mine - share, ph.mine - share, share))
    case MigTake(c) =>
      var q, ph := L(s.lists, RunQueue(c)), s.pc[c].phase;
      InPhaseOf(s.(lists := AddHead(Drop(s.lists, RunQueue(c), |q| - 1), Victims(c), q[|q| - 1])), c,
                Taking(ph.n - 1, ph.toSend, ph.share))
    case MigTaken(c) => InPhaseOf(s, c, Placing(0, s.pc[c].phase.toSend, s.pc[c].phase.share))
    case MigPlace(c) =>
      var t, ph := L(s.lists, Victims(c))[0], s.pc[c].phase;
      var s1 := if t == s.cur[c] then s.(lists := Move(s.lists, Victims(c), 0, Victims(c)))
                else s.(lists := Move(s.lists, Victims(c), 0, RunQueue(ph.next)), tcpu := s.tcpu[t := ph.next],
                        ipi := Kick(s, ph.next));
      InPhaseOf(s1, c, Placing(ph.next, ph.toSend - 1, ph.share))
    case MigNext(c) =>
      InPhaseOf(s, c, Placing(s.pc[c].phase.next + 1, s.pc[c].phase.toSend, s.pc[c].phase.share))
    case MigPlaced(c) => InPhaseOf(s, c, PuttingBack)
    case MigPutBack(c) => s.(lists := Move(s.lists, Victims(c), 0, RunQueue(c)))
    case MigEnd(c) => Return(s, c)
  }

  /** The state after an action. */
  function Apply(s: State, a: Action): State
    requires Enabled(s, a)
  {
    match a
    case Yield(c) => Place(s, c, RunQueue(s.tcpu[s.cur[c]]))
    case Sleep(c, w) => Place(s, c, WaitChannel(w))
    case Exit(c) => Place(s, c, Zombies(c))
    case Dispatch(c) =>
      var next := L(s.lists, RunQueue(c))[0];
      s.(lists := Drop(s.lists, RunQueue(c), 0), cur := s.cur[c := next], pc := s.pc[c := Run],
         saved := s.saved + {s.cur[c]} - {next})
    case GoIdle(c) => s.(pc := s.pc[c := Idle])
    case Unidle(c) => s.(pc := s.pc[c := Switching], ipi := s.ipi - {c})
    case Fork(c, t) =>
      s.(lists := AddTail(s.lists, Transit, t), tcpu := s.tcpu[t := s.tcpu[s.cur[c]]], saved := s.saved + {t})
    case Exorcise(c) =>
      var z := L(s.lists, Zombies(c))[0];
      s.(lists := Drop(s.lists, Zombies(c), 0), tcpu := s.tcpu - {z}, saved := s.saved - {z})
    case WakeOne(w) => s.(lists := Move(s.lists, WaitChannel(w), 0, Transit))
    case ReadCpu(k) => var t := L(s.lists, Transit)[k]; s.(dest := s.dest[t := s.tcpu[t]])
    case Enqueue(k) =>
      var t := L(s.lists, Transit)[k];
      s.(lists := Move(s.lists, Transit, k, RunQueue(s.dest[t])), dest := s.dest - {t}, ipi := Kick(s, s.dest[t]))
    case _ => ApplyMigration(s, a)
  }
}
