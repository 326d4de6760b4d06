/** Every step of the thread system keeps its invariant, and what follows for every run. */
module ThreadProofs {
  import opened Threads

  // Adding a thread that was on no list.

  lemma AddHome(lists: Lists, lists': Lists, x: Thread, l: Loc, tcpu: map<Thread, Cpu>, tcpu': map<Thread, Cpu>)
    requires HomeOk(lists, tcpu) && Added(lists, lists', x, l) && x in tcpu'
    requires l.RunQueue? || l.Zombies? || l.Victims? ==> tcpu'[x] == l.c
    requires forall t | t in tcpu :: t in tcpu' && tcpu'[t] == tcpu[t]
    ensures HomeOk(lists', tcpu')
  {
    hide On;
  }

  lemma AddVictims(lists: Lists, lists': Lists, x: Thread, l: Loc, pc: seq<Pc>, pc': seq<Pc>)
    requires VictimsOk(lists, pc) && Added(lists, lists', x, l) && !l.Victims? && |pc'| == |pc|
    requires forall c: Cpu | c < |pc| && UsesVictims(pc[c]) :: UsesVictims(pc'[c])
    ensures VictimsOk(lists', pc')
  {
    hide On;
  }

  lemma AddDest(lists: Lists, lists': Lists, x: Thread, l: Loc, tcpu: map<Thread, Cpu>, tcpu': map<Thread, Cpu>,
                dest: map<Thread, Cpu>)
    requires DestOk(lists, tcpu, dest) && Added(lists, lists', x, l)
    requires forall t | t in tcpu :: t in tcpu' && tcpu'[t] == tcpu[t]
    ensures DestOk(lists', tcpu', dest)
  {
    hide On;
  }

  lemma AddPlaced(lists: Lists, lists': Lists, x: Thread, l: Loc, saved: set<Thread>)
    requires PlacedOk(lists, saved) && Added(lists, lists', x, l)
    ensures PlacedOk(lists', saved + {x})
  {
    hide On;
    assert On(lists', x, l);
    forall t | t in saved
      ensures Somewhere(lists', t)
    {
      var l' :| On(lists, t, l');
      assert On(lists', t, l');
    }
  }

  lemma AddCurPlaced(lists: Lists, lists': Lists, x: Thread, l: Loc, cur: seq<Thread>, pc: seq<Pc>, pc': seq<Pc>,
                     c: Cpu)
    requires CurPlacedOk(lists, cur, pc) && Added(lists, lists', x, l) && |pc'| == |pc|
    requires forall d: Cpu | d < |pc| && d != c :: pc'[d] == pc[d]
    requires c < |cur| && (Executing(pc'[c]) || cur[c] == x || !Executing(pc[c]))
    ensures CurPlacedOk(lists', cur, pc')
  {
    hide On;
    assert On(lists', x, l);
    forall d: Cpu | d < |pc'| && !Executing(pc'[d])
      ensures Somewhere(lists', cur[d])
    {
      if cur[d] != x {
        var l' :| On(lists, cur[d], l');
        assert On(lists', cur[d], l');
      }
    }
  }

  lemma AddLen(lists: Lists, l: Loc, t: Thread)
    ensures |L(AddTail(lists, l, t), l)| == |L(lists, l)| + 1
    ensures forall l' | l' != l :: L(AddTail(lists, l, t), l') == L(lists, l')
  {
  }

  lemma DropLen(lists: Lists, l: Loc, k: nat)
    requires k < |L(lists, l)|
    ensures forall l' | l' != l :: L(Drop(lists, l, k), l') == L(lists, l')
  {
  }

  /** A CPU's migration state survives others adding to its run queue. */
  lemma PhasesGrow(s: State, s': State)
    requires PhasesOk(s) && |s'.pc| == |s.pc|
    requires forall c: Cpu | c < |s.pc| :: s'.pc[c] == s.pc[c] || !s'.pc[c].Migrating?
    requires forall c: Cpu | c < |s.pc| && s.pc[c].Migrating? ::
               && |L(s'.lists, RunQueue(c))| >= |L(s.lists, RunQueue(c))|
               && |L(s'.lists, Victims(c))| == |L(s.lists, Victims(c))|
    ensures PhasesOk(s')
  {
    hide L;
    forall c: Cpu | c < |s'.pc|
      ensures PhaseOk(s', c)
    {
      assert PhaseOk(s, c);
    }
  }

  /** thread_switch puts the current thread on a list. */
  lemma PlaceKeeps(s: State, s': State, c: Cpu, l: Loc)
    requires Inv(s) && c < |s.pc| && s.pc[c] == Run && s' == Place(s, c, l)
    requires l == RunQueue(c) || l.WaitChannel? || l == Zombies(c)
    ensures Inv(s')
  {
    hide On;
    hide L;
    hide Unique;
    hide PhasesOk;
    hide HomeOk;
    hide VictimsOk;
    hide DestOk;
    hide PlacedOk;
    hide CurPlacedOk;
    hide AddTail;
    var x := s.cur[c];
    AddOn(s.lists, s'.lists, l, x);
    AddLen(s.lists, l, x);
    AddHome(s.lists, s'.lists, x, l, s.tcpu, s.tcpu);
    AddVictims(s.lists, s'.lists, x, l, s.pc, s'.pc);
    AddDest(s.lists, s'.lists, x, l, s.tcpu, s.tcpu, s.dest);
    PhasesGrow(s, s');
    AddPlaced(s.lists, s'.lists, x, l, s.saved);
    PlacedLess(s'.lists, s.saved + {x}, s.saved);
    AddCurPlaced(s.lists, s'.lists, x, l, s.cur, s.pc, s'.pc, c);
    forall d: Cpu, l' | d < |s.pc| && Executing(s'.pc[d])
      ensures !On(s'.lists, s.cur[d], l')
    {
      assert d != c && s.tcpu[s.cur[d]] == d;
    }
  }

  lemma PlacedLess(lists: Lists, saved: set<Thread>, saved': set<Thread>)
    requires PlacedOk(lists, saved) && saved' <= saved
    ensures PlacedOk(lists, saved')
  {
    hide On;
  }

  // Taking a thread off its list.

  lemma DropLists(lists: Lists, lists': Lists, x: Thread, tcpu: map<Thread, Cpu>, pc: seq<Pc>, pc': seq<Pc>,
                  dest: map<Thread, Cpu>, from_: Loc)
    requires Unique(lists) && On(lists, x, from_) && from_ != Transit && Removed(lists, lists', x)
    requires HomeOk(lists, tcpu) && VictimsOk(lists, pc) && DestOk(lists, tcpu, dest) && |pc'| == |pc|
    requires forall c: Cpu | c < |pc| && UsesVictims(pc[c]) :: UsesVictims(pc'[c])
    ensures HomeOk(lists', tcpu) && HomeOk(lists', tcpu - {x}) && VictimsOk(lists', pc')
    ensures DestOk(lists', tcpu, dest) && DestOk(lists', tcpu - {x}, dest)
  {
    hide On;
  }

  lemma DropPlaced(lists: Lists, lists': Lists, x: Thread, saved: set<Thread>)
    requires PlacedOk(lists, saved) && Removed(lists, lists', x)
    ensures PlacedOk(lists', saved - {x})
  {
    hide On;
    forall t | t in saved - {x}
      ensures Somewhere(lists', t)
    {
      var l' :| On(lists, t, l');
      assert On(lists', t, l');
    }
  }

  /** A CPU takes the next thread from its own run queue; its context is saved, or it never stopped being current. */
  lemma DispatchKeeps(s: State, s': State, c: Cpu, next: Thread)
    requires Inv(s) && c < |s.pc| && s.pc[c] == Switching && L(s.lists, RunQueue(c)) != []
    requires next == L(s.lists, RunQueue(c))[0]
    requires s' == s.(lists := Drop(s.lists, RunQueue(c), 0), cur := s.cur[c := next], pc := s.pc[c := Run],
                      saved := s.saved + {s.cur[c]} - {next})
    ensures Inv(s')
  {
    hide On;
    hide L;
    hide Unique;
    hide PhasesOk;
    hide HomeOk;
    hide VictimsOk;
    hide DestOk;
    hide PlacedOk;
    hide CurPlacedOk;
    hide Drop;
    DropOn(s.lists, s'.lists, RunQueue(c), 0);
    DropLen(s.lists, RunQueue(c), 0);
    HomeAt(s.lists, s.tcpu, next, RunQueue(c));
    DropLists(s.lists, s'.lists, next, s.tcpu, s.pc, s'.pc, s.dest, RunQueue(c));
    PhasesGrow(s, s');
    AlsoPlaced(s, c);
    DropPlaced(s.lists, s'.lists, next, s.saved + {s.cur[c]});
    SavedDispatch(s, s', c, next);
    DropCurPlaced(s.lists, s'.lists, next, s.cur, s'.cur, s.pc, s'.pc, c);
  }

  lemma DropCurPlaced(lists: Lists, lists': Lists, x: Thread, cur: seq<Thread>, cur': seq<Thread>, pc: seq<Pc>,
                      pc': seq<Pc>, c: Cpu)
    requires CurPlacedOk(lists, cur, pc) && Removed(lists, lists', x) && c < |pc| == |pc'| == |cur'|
          && Executing(pc'[c])
    requires forall d: Cpu | d < |pc| && d != c :: pc'[d] == pc[d] && cur'[d] == cur[d] && cur[d] != x
    ensures CurPlacedOk(lists', cur', pc')
  {
    hide On;
    forall d: Cpu | d < |pc'| && !Executing(pc'[d])
      ensures Somewhere(lists', cur'[d])
    {
      var l' :| On(lists, cur[d], l');
      assert On(lists', cur[d], l');
    }
  }

  lemma AlsoPlaced(s: State, c: Cpu)
    requires PlacedOk(s.lists, s.saved) && CurPlacedOk(s.lists, s.cur, s.pc) && c < |s.pc| && !Executing(s.pc[c])
    ensures PlacedOk(s.lists, s.saved + {s.cur[c]})
  {
    hide On;
  }

  lemma HomeAt(lists: Lists, tcpu: map<Thread, Cpu>, x: Thread, l: Loc)
    requires HomeOk(lists, tcpu) && On(lists, x, l)
    ensures x in tcpu && (l.RunQueue? || l.Zombies? || l.Victims? ==> tcpu[x] == l.c)
  {
    hide On;
  }

  lemma SavedDispatch(s: State, s': State, c: Cpu, next: Thread)
    requires CurOk(s) && SavedOk(s) && c < |s.pc| && next in s.tcpu && s.tcpu[next] == c
    requires s'.cur == s.cur[c := next] && s'.tcpu == s.tcpu && s'.saved == s.saved + {s.cur[c]} - {next}
    ensures SavedOk(s') && (next in s.saved || next == s.cur[c])
  {
    forall t: Thread
      ensures t in s'.saved <==> t in s.tcpu && t !in s'.cur
    {
      if t in s'.cur {
        var d :| 0 <= d < |s'.cur| && s'.cur[d] == t;
        assert d != c ==> s.cur[d] == t;
      }
      if t in s.cur {
        var d :| 0 <= d < |s.cur| && s.cur[d] == t;
        assert d != c ==> s'.cur[d] == t;
      }
      assert s'.cur[c] == next;
    }
  }

  lemma PcKeeps(s: State, s': State, c: Cpu, pc: Pc)
    requires Inv(s) && c < |s.pc| && s' == s.(pc := s.pc[c := pc], ipi := s'.ipi) && PhaseOk(s', c) && IpiOk(s')
    requires Executing(pc) <==> Executing(s.pc[c])
    requires UsesVictims(s.pc[c]) ==> UsesVictims(pc) || L(s.lists, Victims(c)) == []
    ensures Inv(s')
  {
    hide L;
    hide Unique;
    forall t: Thread, d: Cpu | On(s.lists, t, Victims(d))
      ensures UsesVictims(s'.pc[d])
    {
    }
    forall d: Cpu | d < |s.pc|
      ensures PhaseOk(s', d)
    {
      assert PhaseOk(s, d);
    }
  }

  lemma ForkKeeps(s: State, s': State, c: Cpu, t: Thread)
    requires Inv(s) && c < |s.pc| && s.pc[c] == Run && t !in s.tcpu
    requires s' == s.(lists := AddTail(s.lists, Transit, t), tcpu := s.tcpu[t := s.tcpu[s.cur[c]]],
                      saved := s.saved + {t})
    ensures Inv(s')
  {
    hide On;
    hide L;
    hide Unique;
    hide PhasesOk;
    hide VictimsOk;
    hide DestOk;
    hide PlacedOk;
    hide CurPlacedOk;
    hide AddTail;
    AddOn(s.lists, s'.lists, Transit, t);
    AddLen(s.lists, Transit, t);
    AddHome(s.lists, s'.lists, t, Transit, s.tcpu, s'.tcpu);
    AddVictims(s.lists, s'.lists, t, Transit, s.pc, s.pc);
    AddDest(s.lists, s'.lists, t, Transit, s.tcpu, s'.tcpu, s.dest);
    PhasesGrow(s, s');
    AddPlaced(s.lists, s'.lists, t, Transit, s.saved);
    AddCurPlaced(s.lists, s'.lists, t, Transit, s.cur, s.pc, s.pc, c);
  }

  /** exorcise frees only threads that are on no CPU and have their context saved. */
  lemma ExorciseKeeps(s: State, s': State, c: Cpu, z: Thread)
    requires Inv(s) && c < |s.pc| && s.pc[c] == Run && L(s.lists, Zombies(c)) != [] && z == L(s.lists, Zombies(c))[0]
    requires s' == s.(lists := Drop(s.lists, Zombies(c), 0), tcpu := s.tcpu - {z}, saved := s.saved - {z})
    ensures Inv(s') && z in s.saved && z !in s.cur
  {
    hide On;
    hide L;
    hide Unique;
    hide PhasesOk;
    hide HomeOk;
    hide VictimsOk;
    hide DestOk;
    hide PlacedOk;
    hide CurPlacedOk;
    hide Drop;
    DropOn(s.lists, s'.lists, Zombies(c), 0);
    DropLen(s.lists, Zombies(c), 0);
    HomeAt(s.lists, s.tcpu, z, Zombies(c));
    assert z !in s.cur;
    DropLists(s.lists, s'.lists, z, s.tcpu, s.pc, s.pc, s.dest, Zombies(c));
    PhasesGrow(s, s');
    DropPlaced(s.lists, s'.lists, z, s.saved);
    DropCurPlaced(s.lists, s'.lists, z, s.cur, s.cur, s.pc, s.pc, c);
  }

  // Moving a thread from one list to another.

  /** The parts of a step that a move leaves alone, or changes only for the thread moved. */
  ghost predicate MoveFrame(s: State, s': State, x: Thread, from_: Loc, to_: Loc) {
    && On(s.lists, x, from_) && Unique(s'.lists) && Moved(s.lists, s'.lists, x, to_)
    && s'.cur == s.cur && s'.saved == s.saved && |s'.pc| == |s.pc|
    && (forall c: Cpu | c < |s.pc| ::
          (Executing(s'.pc[c]) <==> Executing(s.pc[c])) && (UsesVictims(s.pc[c]) ==> UsesVictims(s'.pc[c])))
    && s'.tcpu.Keys == s.tcpu.Keys && (forall t | t in s.tcpu && t != x :: s'.tcpu[t] == s.tcpu[t])
    && x in s.tcpu && s'.tcpu[x] < |s.pc| && (x in s.cur ==> s'.tcpu[x] == s.tcpu[x])
    && (to_.RunQueue? || to_.Zombies? || to_.Victims? ==> s'.tcpu[x] == to_.c)
    && (to_.Victims? ==> to_.c < |s.pc| && UsesVictims(s'.pc[to_.c]))
    && s'.dest == s.dest - {x}
  }

  lemma MoveLists(s: State, s': State, x: Thread, from_: Loc, to_: Loc)
    requires MoveFrame(s, s', x, from_, to_) && HomeOk(s.lists, s.tcpu) && VictimsOk(s.lists, s.pc)
    requires DestOk(s.lists, s.tcpu, s.dest)
    ensures HomeOk(s'.lists, s'.tcpu) && VictimsOk(s'.lists, s'.pc) && DestOk(s'.lists, s'.tcpu, s'.dest)
  {
    hide On;
    hide Unique;
    hide Executing;
    hide UsesVictims;
  }

  lemma MovePlaced(s: State, s': State, x: Thread, from_: Loc, to_: Loc)
    requires MoveFrame(s, s', x, from_, to_) && PlacedOk(s.lists, s.saved) && CurPlacedOk(s.lists, s.cur, s.pc)
    ensures PlacedOk(s'.lists, s'.saved) && CurPlacedOk(s'.lists, s'.cur, s'.pc)
  {
    hide On;
    hide Unique;
    hide Executing;
    hide UsesVictims;
    assert On(s'.lists, x, to_);
    forall t: Thread | Somewhere(s.lists, t)
      ensures Somewhere(s'.lists, t)
    {
      if t != x {
        var l :| On(s.lists, t, l);
        assert On(s'.lists, t, l);
      }
    }
  }

  lemma MoveKeeps(s: State, s': State, x: Thread, from_: Loc, to_: Loc)
    requires Inv(s) && MoveFrame(s, s', x, from_, to_) && PhasesOk(s') && IpiOk(s')
    ensures Inv(s')
  {
    hide On;
    hide Unique;
    hide Executing;
    hide UsesVictims;
    hide PhasesOk;
    hide HomeOk;
    hide VictimsOk;
    hide DestOk;
    hide PlacedOk;
    hide CurPlacedOk;
    hide IpiOk;
    MoveLists(s, s', x, from_, to_);
    MovePlaced(s, s', x, from_, to_);
  }

  /** Only a thread in transit has had its t_cpu read by a waker. */
  lemma NotInTransit(s: State, x: Thread, l: Loc)
    requires Inv(s) && On(s.lists, x, l) && l != Transit
    ensures s.dest - {x} == s.dest
  {
    hide On;
  }

  lemma WakeKeeps(s: State, s': State, w: nat)
    requires Inv(s) && L(s.lists, WaitChannel(w)) != []
    requires s' == s.(lists := Move(s.lists, WaitChannel(w), 0, Transit))
    ensures Inv(s')
  {
    hide On;
    hide L;
    hide Unique;
    hide Inv;
    hide Move;
    var x := L(s.lists, WaitChannel(w))[0];
    UniqueInv(s);
    MoveOn(s.lists, s'.lists, WaitChannel(w), 0, Transit);
    NotInTransit(s, x, WaitChannel(w));
    ThreadKnown(s, x, WaitChannel(w));
    PhasesGrow(s, s');
    MoveKeeps(s, s', x, WaitChannel(w), Transit);
  }

  lemma UniqueInv(s: State)
    requires Inv(s)
    ensures Unique(s.lists) && PhasesOk(s) && IpiOk(s)
  {
  }

  lemma ThreadKnown(s: State, x: Thread, l: Loc)
    requires Inv(s) && On(s.lists, x, l)
    ensures x in s.tcpu && s.tcpu[x] < |s.pc| && (l.RunQueue? || l.Zombies? || l.Victims? ==> s.tcpu[x] == l.c)
    ensures x in s.dest ==> s.dest[x] == s.tcpu[x]
  {
    hide On;
  }

  lemma EnqueueKeeps(s: State, s': State, k: nat, x: Thread)
    requires Inv(s) && k < |L(s.lists, Transit)| && x == L(s.lists, Transit)[k] && x in s.dest && Unlocked(s, s.dest[x])
    requires s' == s.(lists := Move(s.lists, Transit, k, RunQueue(s.dest[x])), dest := s.dest - {x},
                      ipi := Kick(s, s.dest[x]))
    ensures Inv(s')
  {
    hide On;
    hide L;
    hide Unique;
    hide Inv;
    hide Move;
    UniqueInv(s);
    MoveOn(s.lists, s'.lists, Transit, k, RunQueue(s.dest[x]));
    ThreadKnown(s, x, Transit);
    PhasesGrow(s, s');
    MoveKeeps(s, s', x, Transit, RunQueue(s.dest[x]));
  }

  lemma ReadCpuKeeps(s: State, s': State, k: nat, x: Thread)
    requires Inv(s) && k < |L(s.lists, Transit)| && x == L(s.lists, Transit)[k] && x in s.tcpu
    requires s' == s.(dest := s.dest[x := s.tcpu[x]])
    ensures Inv(s')
  {
    assert On(s.lists, x, Transit);
    hide On;
    hide L;
    hide Unique;
    hide PhaseOk;
    assert forall c: Cpu | c < |s.pc| :: PhaseOk(s', c) == PhaseOk(s, c) by { PhaseSame(s, s'); }
  }

  lemma PhaseSame(s: State, s': State)
    requires s'.lists == s.lists && s'.pc == s.pc
    ensures forall c: Cpu | c < |s.pc| :: PhaseOk(s', c) == PhaseOk(s, c)
  {
  }

  /** Phases of a move made by CPU c's own migration code. */
  lemma PhasesMove(s: State, s': State, c: Cpu)
    requires PhasesOk(s) && |s'.pc| == |s.pc| && c < |s.pc| && PhaseOk(s', c)
    requires forall d: Cpu | d < |s.pc| && d != c :: s'.pc[d] == s.pc[d]
    requires forall d: Cpu | d < |s.pc| && d != c ::
               && |L(s'.lists, RunQueue(d))| >= |L(s.lists, RunQueue(d))|
               && |L(s'.lists, Victims(d))| == |L(s.lists, Victims(d))|
    ensures PhasesOk(s')
  {
    hide L;
    forall d: Cpu | d < |s'.pc|
      ensures PhaseOk(s', d)
    {
      assert PhaseOk(s, d);
    }
  }

  lemma TakeKeeps(s: State, s': State, c: Cpu, x: Thread, n: nat, toSend: nat, share: nat)
    requires Inv(s) && c < |s.pc| && s.pc[c].Migrating? && s.pc[c].phase == Taking(n, toSend, share) && n > 0
    requires L(s.lists, RunQueue(c)) != [] && x == L(s.lists, RunQueue(c))[|L(s.lists, RunQueue(c))| - 1]
    requires s' == s.(lists := AddHead(Drop(s.lists, RunQueue(c), |L(s.lists, RunQueue(c))| - 1), Victims(c), x),
                      pc := s.pc[c := Migrating(Taking(n - 1, toSend, share), s.pc[c].wasIdle)])
    ensures Inv(s')
  {
    hide On;
    hide L;
    hide Unique;
    hide Inv;
    hide Drop;
    hide AddHead;
    UniqueInv(s);
    assert PhaseOk(s, c);
    MoveOn(s.lists, s'.lists, RunQueue(c), |L(s.lists, RunQueue(c))| - 1, Victims(c));
    NotInTransit(s, x, RunQueue(c));
    ThreadKnown(s, x, RunQueue(c));
    PhasesMove(s, s', c);
    MoveKeeps(s, s', x, RunQueue(c), Victims(c));
  }

  lemma MigPlaceKeeps(s: State, s': State, c: Cpu, x: Thread, d: Cpu, toSend: nat, share: nat)
    requires Inv(s) && c < |s.pc| && s.pc[c].Migrating? && s.pc[c].phase == Placing(d, toSend, share) && toSend > 0
    requires d != c && d < |s.pc| && L(s.lists, Victims(c)) != [] && x == L(s.lists, Victims(c))[0] && x != s.cur[c]
    requires s' == s.(lists := Move(s.lists, Victims(c), 0, RunQueue(d)), tcpu := s.tcpu[x := d], ipi := Kick(s, d),
                      pc := s.pc[c := Migrating(Placing(d, toSend - 1, share), s.pc[c].wasIdle)])
    ensures Inv(s')
  {
    hide On;
    hide L;
    hide Unique;
    hide Inv;
    hide Move;
    UniqueInv(s);
    assert PhaseOk(s, c);
    MoveOn(s.lists, s'.lists, Victims(c), 0, RunQueue(d));
    NotInTransit(s, x, Victims(c));
    ThreadKnown(s, x, Victims(c));
    NotCurrent(s, x, c);
    PhasesMove(s, s', c);
    MoveKeeps(s, s', x, Victims(c), RunQueue(d));
  }

  lemma NotCurrent(s: State, x: Thread, c: Cpu)
    requires Inv(s) && c < |s.pc| && x in s.tcpu && s.tcpu[x] == c && x != s.cur[c]
    ensures x !in s.cur
  {
    hide On;
    hide L;
  }

  lemma MigSkipKeeps(s: State, s': State, c: Cpu, d: Cpu, toSend: nat, share: nat)
    requires Inv(s) && c < |s.pc| && s.pc[c].Migrating? && s.pc[c].phase == Placing(d, toSend, share) && toSend > 0
    requires L(s.lists, Victims(c)) != []
    requires s' == s.(lists := Move(s.lists, Victims(c), 0, Victims(c)),
                      pc := s.pc[c := Migrating(Placing(d, toSend - 1, share), s.pc[c].wasIdle)])
    ensures Inv(s')
  {
    hide On;
    hide L;
    hide Unique;
    hide Inv;
    hide Move;
    var x := L(s.lists, Victims(c))[0];
    UniqueInv(s);
    assert PhaseOk(s, c);
    MoveOn(s.lists, s'.lists, Victims(c), 0, Victims(c));
    NotInTransit(s, x, Victims(c));
    ThreadKnown(s, x, Victims(c));
    PhasesMove(s, s', c);
    MoveKeeps(s, s', x, Victims(c), Victims(c));
  }

  lemma PutBackKeeps(s: State, s': State, c: Cpu)
    requires Inv(s) && c < |s.pc| && s.pc[c].Migrating? && s.pc[c].phase.PuttingBack? && L(s.lists, Victims(c)) != []
    requires s' == s.(lists := Move(s.lists, Victims(c), 0, RunQueue(c)))
    ensures Inv(s')
  {
    hide On;
    hide L;
    hide Unique;
    hide Inv;
    hide Move;
    var x := L(s.lists, Victims(c))[0];
    UniqueInv(s);
    MoveOn(s.lists, s'.lists, Victims(c), 0, RunQueue(c));
    NotInTransit(s, x, Victims(c));
    ThreadKnown(s, x, Victims(c));
    PhasesMove(s, s', c);
    MoveKeeps(s, s', x, Victims(c), RunQueue(c));
  }

  /** Every step keeps the invariant. */
  lemma StepKeeps(s: State, a: Action)
    requires Inv(s) && Enabled(s, a)
    ensures Inv(Apply(s, a))
  {
    var s' := Apply(s, a);
    match a {
      case Yield(_) | Sleep(_, _) | Exit(_) | Dispatch(_) | GoIdle(_) | Unidle(_) | Fork(_, _) | Exorcise(_) =>
        SwitchKeeps(s, a, s');
      case WakeOne(w) => WakeKeeps(s, s', w);
      case ReadCpu(k) => ReadCpuKeeps(s, s', k, L(s.lists, Transit)[k]);
      case Enqueue(k) => EnqueueKeeps(s, s', k, L(s.lists, Transit)[k]);
      case _ => MigrationKeeps(s, a, s');
    }
  }

  lemma SwitchKeeps(s: State, a: Action, s': State)
    requires Inv(s) && Enabled(s, a) && s' == Apply(s, a)
    requires a.Yield? || a.Sleep? || a.Exit? || a.Dispatch? || a.GoIdle? || a.Unidle? || a.Fork? || a.Exorcise?
    ensures Inv(s')
  {
    hide L;
    hide On;
    hide Unique;
    hide HomeOk;
    hide VictimsOk;
    hide DestOk;
    hide PhasesOk;
    hide ExecOk;
    hide SavedOk;
    hide PlacedOk;
    hide CurPlacedOk;
    match a {
      case Yield(c) => PlaceKeeps(s, s', c, RunQueue(c));
      case Sleep(c, w) => PlaceKeeps(s, s', c, WaitChannel(w));
      case Exit(c) => PlaceKeeps(s, s', c, Zombies(c));
      case Dispatch(c) => DispatchKeeps(s, s', c, L(s.lists, RunQueue(c))[0]);
      case GoIdle(c) => PcKeeps(s, s', c, Idle);
      case Unidle(c) => PcKeeps(s, s', c, Switching);
      case Fork(c, t) => ForkKeeps(s, s', c, t);
      case Exorcise(c) => ExorciseKeeps(s, s', c, L(s.lists, Zombies(c))[0]);
    }
  }

  lemma MigrationKeeps(s: State, a: Action, s': State)
    requires Inv(s) && Enabled(s, a) && s' == Apply(s, a)
    requires IsMigration(a)
    ensures Inv(s')
  {
    hide L;
    hide On;
    hide Unique;
    hide HomeOk;
    hide VictimsOk;
    hide DestOk;
    hide ExecOk;
    hide SavedOk;
    hide PlacedOk;
    hide CurPlacedOk;
    var c := a.c;
    match a {
      case MigTake(_) =>
        var ph, q := s.pc[c].phase, L(s.lists, RunQueue(c));
        TakeKeeps(s, s', c, q[|q| - 1], ph.n, ph.toSend, ph.share);
      case MigPlace(_) =>
        var ph, x := s.pc[c].phase, L(s.lists, Victims(c))[0];
        if x == s.cur[c] {
          MigSkipKeeps(s, s', c, ph.next, ph.toSend, ph.share);
        } else {
          MigPlaceKeeps(s, s', c, x, ph.next, ph.toSend, ph.share);
        }
      case MigPutBack(_) => PutBackKeeps(s, s', c);
      case MigStart(_) | MigCount(_) | MigDecide(_) | MigTaken(_) | MigNext(_) | MigPlaced(_) | MigEnd(_) =>
        PhaseChangeKeeps(s, a, s');
    }
  }

  lemma PhaseChangeKeeps(s: State, a: Action, s': State)
    requires Inv(s) && Enabled(s, a) && s' == Apply(s, a)
    requires a.MigStart? || a.MigCount? || a.MigDecide? || a.MigTaken? || a.MigNext? || a.MigPlaced? || a.MigEnd?
    ensures Inv(s')
  {
    hide L;
    hide On;
    hide Unique;
    hide HomeOk;
    hide VictimsOk;
    hide DestOk;
    hide ExecOk;
    hide SavedOk;
    hide PlacedOk;
    hide CurPlacedOk;
    var c := a.c;
    assert PhaseOk(s, c);
    if a.MigDecide? {
      NoVictims(s, c);
    }
    PcKeeps(s, s', c, s'.pc[c]);
  }

  /** A CPU that has not started taking victims has none. */
  lemma NoVictims(s: State, c: Cpu)
    requires Inv(s) && c < |s.pc| && !UsesVictims(s.pc[c])
    ensures L(s.lists, Victims(c)) == []
  {
    var xs := L(s.lists, Victims(c));
    if xs != [] {
      assert On(s.lists, xs[0], Victims(c));
    }
  }

  /** A run from the boot state: acts[k] leads from states[k] to states[k + 1]. */
  ghost predicate IsRun(states: seq<State>, acts: seq<Action>) {
    && |states| == |acts| + 1 && Init(states[0])
    && forall k | 0 <= k < |acts| :: Enabled(states[k], acts[k]) && states[k + 1] == Apply(states[k], acts[k])
  }

  lemma {:induction false} RunInv(states: seq<State>, acts: seq<Action>, k: nat)
    requires IsRun(states, acts) && k < |states|
    ensures Inv(states[k])
  {
    hide Inv;
    hide Apply;
    hide Enabled;
    if k == 0 {
      InitInv(states[0]);
    } else {
      RunInv(states, acts, k - 1);
      StepKeeps(states[k - 1], acts[k - 1]);
    }
  }

  /** In every reachable state no thread is current on two CPUs, and curthread's t_cpu is its CPU. */
  lemma NeverTwice(states: seq<State>, acts: seq<Action>, k: nat, c: Cpu, d: Cpu)
    requires IsRun(states, acts) && k < |states|
    ensures var s := states[k];
            && |s.cur| == |s.pc|
            && (c < |s.cur| ==> s.cur[c] in s.tcpu && s.tcpu[s.cur[c]] == c)
            && (c < |s.cur| && d < |s.cur| && s.cur[c] == s.cur[d] ==> c == d)
  {
    hide Apply;
    hide Enabled;
    RunInv(states, acts, k);
  }

  /** Whenever a CPU resumes a thread, its context has been saved, or it is the very thread the CPU was still on. */
  lemma ResumedIsSaved(states: seq<State>, acts: seq<Action>, k: nat, c: Cpu)
    requires IsRun(states, acts) && k < |acts| && acts[k] == Dispatch(c)
    ensures Enabled(states[k], acts[k])
    ensures var next := L(states[k].lists, RunQueue(c))[0];
            next in states[k].saved || next == states[k].cur[c]
  {
    RunInv(states, acts, k);
    var s := states[k];
    var next := L(s.lists, RunQueue(c))[0];
    assert On(s.lists, next, RunQueue(c));
    if next in s.cur {
      var d :| 0 <= d < |s.cur| && s.cur[d] == next;
      assert s.tcpu[s.cur[d]] == d;
    }
  }

  /** The list removals inside thread_consider_migration never find their list empty, whatever other CPUs do. */
  lemma RemovalsSucceed(states: seq<State>, acts: seq<Action>, k: nat, c: Cpu)
    requires IsRun(states, acts) && k < |states| && InPhase(states[k], c)
    ensures states[k].pc[c].phase.Taking? && states[k].pc[c].phase.n > 0 ==> L(states[k].lists, RunQueue(c)) != []
    ensures states[k].pc[c].phase.Placing? && states[k].pc[c].phase.toSend > 0 ==> L(states[k].lists, Victims(c)) != []
  {
    hide Apply;
    hide Enabled;
    RunInv(states, acts, k);
    assert PhaseOk(states[k], c);
  }

  /** exorcise only frees threads that are not current anywhere. */
  lemma ExorciseIsSafe(states: seq<State>, acts: seq<Action>, k: nat, c: Cpu)
    requires IsRun(states, acts) && k < |acts| && acts[k] == Exorcise(c)
    ensures Enabled(states[k], acts[k])
    ensures var z := L(states[k].lists, Zombies(c))[0]; z in states[k].saved && z !in states[k].cur
  {
    RunInv(states, acts, k);
    ExorciseKeeps(states[k], Apply(states[k], acts[k]), c, L(states[k].lists, Zombies(c))[0]);
  }

  /** A thread's t_cpu changes only when its CPU's migration sends it away, and then it is current nowhere. */
  lemma StepFrame(states: seq<State>, acts: seq<Action>, k: nat, t: Thread)
    requires IsRun(states, acts) && k < |acts| && t in states[k].tcpu && t in states[k + 1].tcpu
    ensures states[k + 1].tcpu[t] != states[k].tcpu[t] ==>
              && acts[k].MigPlace? && t !in states[k].cur && On(states[k].lists, t, Victims(acts[k].c))
              && states[k].tcpu[t] == acts[k].c
  {
    RunInv(states, acts, k);
    var s, a := states[k], acts[k];
    if a.MigPlace? {
      var x := L(s.lists, Victims(a.c))[0];
      assert On(s.lists, x, Victims(a.c));
      ThreadKnown(s, x, Victims(a.c));
      if x != s.cur[a.c] {
        NotCurrent(s, x, a.c);
      }
    }
  }

  /** A thread is created only by fork and destroyed only by exorcise. */
  lemma ThreadsConserved(states: seq<State>, acts: seq<Action>, k: nat)
    requires IsRun(states, acts) && k < |acts|
    ensures states[k + 1].tcpu.Keys ==
              if acts[k].Fork? then states[k].tcpu.Keys + {acts[k].t}
              else if acts[k].Exorcise? then states[k].tcpu.Keys - {L(states[k].lists, Zombies(acts[k].c))[0]}
              else states[k].tcpu.Keys
  {
    hide Inv;
    hide L;
    hide Move;
    hide Drop;
    RunInv(states, acts, k);
    var s, a := states[k], acts[k];
    if a.MigPlace? {
      var x := L(s.lists, Victims(a.c))[0];
      assert On(s.lists, x, Victims(a.c));
      ThreadKnown(s, x, Victims(a.c));
    }
  }

  /** In every reachable state each thread is executing on its CPU or on exactly one list, never both. */
  lemma OnePlace(states: seq<State>, acts: seq<Action>, k: nat, t: Thread)
    requires IsRun(states, acts) && k < |states| && t in states[k].tcpu
    ensures var s := states[k];
            && |s.cur| == |s.pc|
            && ((exists c: Cpu | c < |s.pc| :: Executing(s.pc[c]) && s.cur[c] == t) <==> !Somewhere(s.lists, t))
            && forall l, l' | On(s.lists, t, l) && On(s.lists, t, l') :: l == l'
  {
    hide Apply;
    hide Enabled;
    hide On;
    RunInv(states, acts, k);
    var s := states[k];
    if !Somewhere(s.lists, t) {
      assert t in s.cur;
      var c :| 0 <= c < |s.cur| && s.cur[c] == t;
      assert Executing(s.pc[c]);
    }
  }

  /** A region of CPU c's migration leaves d's queue alone or, while placing, at most one share long. */
  ghost predicate Bounded(s: State, s': State, c: Cpu, d: Cpu) {
    || L(s'.lists, RunQueue(d)) == L(s.lists, RunQueue(d))
    || (InPhase(s, c) && s.pc[c].phase.Placing? && |L(s'.lists, RunQueue(d))| <= s.pc[c].phase.share)
  }

  /** Migration leaves every other run queue at most one share long, unless it was longer already. */
  lemma QueueBound(states: seq<State>, acts: seq<Action>, k: nat, c: Cpu, d: Cpu)
    requires IsRun(states, acts) && k < |acts| && IsMigration(acts[k]) && acts[k].c == c && d != c
    ensures Bounded(states[k], states[k + 1], c, d)
  {
    hide Unique;
    hide L;
    hide Inv;
    hide Apply;
    hide Enabled;
    RunInv(states, acts, k);
    UniqueInv(states[k]);
    if acts[k].MigPlace? {
      PlaceBound(states[k], c, d);
    } else {
      OtherBound(states[k], acts[k], c, d);
    }
  }

  lemma PlaceBound(s: State, c: Cpu, d: Cpu)
    requires Unique(s.lists) && Enabled(s, MigPlace(c)) && d != c
    ensures Bounded(s, Apply(s, MigPlace(c)), c, d)
  {
    hide Unique;
    hide On;
    hide L;
    hide Move;
    hide Drop;
    hide AddHead;
    var x, s' := L(s.lists, Victims(c))[0], Apply(s, MigPlace(c));
    MoveOn(s.lists, s'.lists, Victims(c), 0, if x == s.cur[c] then Victims(c) else RunQueue(s.pc[c].phase.next));
  }

  lemma OtherBound(s: State, a: Action, c: Cpu, d: Cpu)
    requires Unique(s.lists) && Enabled(s, a) && IsMigration(a) && !a.MigPlace? && a.c == c && d != c
    ensures L(Apply(s, a).lists, RunQueue(d)) == L(s.lists, RunQueue(d))
  {
    hide Unique;
    hide On;
    hide L;
    hide Move;
    hide Drop;
    hide AddHead;
    var s' := Apply(s, a);
    match a {
      case MigTake(_) =>
        var q := L(s.lists, RunQueue(c));
        MoveOn(s.lists, s'.lists, RunQueue(c), |q| - 1, Victims(c));
      case MigPutBack(_) => MoveOn(s.lists, s'.lists, Victims(c), 0, RunQueue(c));
      case _ =>
    }
  }

  /** In every reachable state, an idle CPU with a runnable thread has an interrupt on the way. */
  lemma NoLostWakeup(states: seq<State>, acts: seq<Action>, k: nat, c: Cpu)
    requires IsRun(states, acts) && k < |states| && c < |states[k].pc| && states[k].pc[c] == Idle
    requires L(states[k].lists, RunQueue(c)) != []
    ensures c in states[k].ipi
  {
    hide Apply;
    hide Enabled;
    hide L;
    RunInv(states, acts, k);
  }
}
