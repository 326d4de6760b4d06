/**
 * Who wakes a sleeping cat or mouse (kern/synchprobs/catmouse_synch.c:107-228). A creature decides to sleep and goes to
 * sleep in two steps, and a broadcast in between does not reach it.
 */
module CatMouseWaits {
  import opened Common
  import opened CatMouse

  // ---- when nothing can happen any more ----

  ghost predicate AllAsleep(s: State) {
    forall x | x in s.pc :: s.pc[x].Asleep?
  }

  ghost predicate Stuck(s: State) {
    forall a :: !Enabled(s, a)
  }

  /** The step a creature takes next, on its own account, from where it is; a sleeper takes none. */
  function NextMove(s: State, x: Creature): Action
    requires x in s.pc && x in s.kind
  {
    match s.pc[x]
    case Out => Arrive(x, 0)
    case First(_) => ReleaseFirst(x)
    case WantBowl(_, _) => TakeBowl(x)
    case HasBowl(_, _) => TakeSet(x)
    case Testing(_) => if MustWait(s, s.kind[x]) then Doze(x) else Admit(x)
    case Dozing(_) => Sleep(x)
    case Asleep(_) => Sleep(x)
    case Admitted(_) => EatStart(x)
    case Eating(_) => EatEnd(x)
    case Fed(_) => TakeSetAgain(x)
    case Leaving(_) => Leave(x)
    case Left(_) => Done(x)
  }

  /** A creature can go on unless it sleeps, or wants a lock that somebody else has. */
  lemma CanMove(s: State, x: Creature)
    requires LocksOk(s) && |s.bowls| > 0 && x in s.pc && !s.pc[x].Asleep?
    requires HoldsSet(s.pc[x]) || s.setLock == None
    requires s.pc[x].WantBowl? ==> s.pc[x].b < |s.bowlLock| && s.bowlLock[s.pc[x].b] == None
    ensures Enabled(s, NextMove(s, x))
  {
    hide OwnedBy;
    hide MustWait;
  }

  lemma AwakeMoves(s: State, x: Creature)
    requires LocksOk(s) && |s.bowls| > 0 && x in s.pc && !s.pc[x].Asleep?
    ensures exists a :: Enabled(s, a)
  {
    hide OwnedBy;
    hide Enabled;
    match s.setLock {
      case Some(y) =>
        Owner(s.setLock, s.pc, y, HoldsSet);
        CanMove(s, y);
      case None =>
        if s.pc[x].WantBowl? && s.bowlLock[s.pc[x].b].Some? {
          var b := s.pc[x].b;
          var y := s.bowlLock[b].value;
          Owner(s.bowlLock[b], s.pc, y, p => HoldsBowl(p, b));
          CanMove(s, y);
        } else {
          CanMove(s, x);
        }
    }
  }

  /** In every run the locks by themselves never block everybody: nothing can happen exactly when all are asleep. */
  lemma StuckIsAllAsleep(states: seq<State>, acts: seq<Action>, k: nat)
    requires IsRun(states, acts) && k < |states| && |states[k].bowls| > 0
    ensures Stuck(states[k]) <==> AllAsleep(states[k])
  {
    RunInv(states, acts, k);
    hide Apply;
    hide OwnedBy;
    hide MustWait;
    var s := states[k];
    if Stuck(s) {
      forall x | x in s.pc
        ensures s.pc[x].Asleep?
      {
        if !s.pc[x].Asleep? {
          AwakeMoves(s, x);
        }
      }
    }
  }

  // ---- lost wakeups ----

  /** Has decided to sleep; has said which kind it is and not been let in yet; is not in the way of anybody. */
  predicate Waits(pc: Pc) {
    pc.Dozing? || pc.Asleep?
  }

  predicate Pending(pc: Pc) {
    pc.WantBowl? || pc.HasBowl? || pc.Testing?
  }

  predicate Away(pc: Pc) {
    pc.Out? || pc.First? || pc.Left?
  }

  predicate IsDozing(pc: Pc) {
    pc.Dozing?
  }

  predicate At(s: State, x: Creature, k: Kind, where_: Pc -> bool) {
    x in s.pc && x in s.kind && s.kind[x] == k && where_(s.pc[x])
  }

  ghost predicate Any(s: State, k: Kind, where_: Pc -> bool) {
    exists x :: At(s, x, k, where_)
  }

  predicate Eaters(s: State) {
    s.eating.cat > 0 || s.eating.mouse > 0
  }

  /** The kind that after_eating wakes. */
  function Woken(s: State, x: Creature): Option<Kind>
    requires x in s.pc && x in s.kind && s.pc[x].Leaving?
  {
    var k, left := s.kind[x], Get(s.eating, s.kind[x]) - 1;
    if left == 0 && Get(s.sleeping, Other(k)) > 0 then Some(Other(k))
    else if left == 0 && Get(s.sleeping, Other(k)) == 0 && Get(s.sleeping, k) == 0 then None
    else Some(k)
  }

  /** The broadcast of after_eating misses a creature of the kind it is for, which has decided to sleep. */
  ghost predicate Misses(s: State, a: Action)
    requires Enabled(s, a)
  {
    a.Leave? && Woken(s, a.x).Some? && Any(s, Woken(s, a.x).value, IsDozing)
  }

  /** One of the kind whose turn it is eats, or is about to be let in, or waits for the other kind to finish. */
  ghost predicate TurnServed(s: State, j: Kind) {
    Get(s.eating, j) > 0 || Any(s, j, Pending) || (Get(s.eating, Other(j)) > 0 && Get(s.sleeping, j) > 0)
  }

  /**
   * While creatures wait, somebody is there to wake them. If broadcasts may have missed some, it may be the turn of
   * those instead, or nobody's until somebody comes back.
   */
  ghost predicate Served(s: State, lossy: bool) {
    match s.turn
    case Some(j) => TurnServed(s, j) || (lossy && Any(s, j, Waits))
    case None =>
      || Eaters(s) || (!Any(s, Cat, Waits) && !Any(s, Mouse, Waits))
      || (lossy && (Any(s, Cat, Away) || Any(s, Mouse, Away)))
  }

  /** One creature moves and nobody else does. */
  lemma AnyMoves(s: State, s': State, x: Creature, p: Pc, k: Kind, where_: Pc -> bool)
    requires x in s.pc && x in s.kind && s'.kind == s.kind && s'.pc == s.pc[x := p]
    ensures Any(s, k, where_) && (where_(s.pc[x]) ==> where_(p)) ==> Any(s', k, where_)
    ensures Any(s', k, where_) && (where_(p) ==> where_(s.pc[x])) ==> Any(s, k, where_)
    ensures s.kind[x] == k && where_(p) ==> Any(s', k, where_)
    ensures s.kind[x] != k ==> (Any(s', k, where_) <==> Any(s, k, where_))
  {
    if Any(s, k, where_) {
      var y :| At(s, y, k, where_);
      assert y != x || where_(p) ==> At(s', y, k, where_);
    }
    if Any(s', k, where_) {
      var y :| At(s', y, k, where_);
      assert y != x || where_(s.pc[x]) ==> At(s, y, k, where_);
    }
    assert s.kind[x] == k && where_(p) ==> At(s', x, k, where_);
  }

  lemma NotNegative(s: State)
    requires CountsOk(s)
    ensures s.eating.cat >= 0 && s.eating.mouse >= 0 && s.sleeping.cat >= 0 && s.sleeping.mouse >= 0
  {
  }

  /** Of the steps other than leaving, none takes away what the waiting rely on. */
  lemma StepServed(s: State, a: Action, lossy: bool)
    requires CountsOk(s) && OneKind(s) && Served(s, lossy) && Enabled(s, a) && !a.Leave?
    ensures Served(Apply(s, a), lossy)
  {
    hide Any;
    hide CountsOk;
    NotNegative(s);
    var s', p := Apply(s, a), Goes(s, a);
    assert s'.pc == s.pc[a.x := p];
    AnyMoves(s, s', a.x, p, Cat, Pending);
    AnyMoves(s, s', a.x, p, Mouse, Pending);
    AnyMoves(s, s', a.x, p, Cat, Waits);
    AnyMoves(s, s', a.x, p, Mouse, Waits);
    AnyMoves(s, s', a.x, p, Cat, Away);
    AnyMoves(s, s', a.x, p, Mouse, Away);
  }

  /** Where after_eating leaves the others. */
  lemma LeaveMoves(s: State, x: Creature, s': State, y: Creature)
    requires Enabled(s, Leave(x)) && s' == Apply(s, Leave(x)) && y in s.pc
    ensures s'.kind == s.kind && s'.pc.Keys == s.pc.Keys && s'.eating == Add(s.eating, s.kind[x], -1)
    ensures s'.sleeping == s.sleeping
    ensures s'.turn == if Woken(s, x) == Some(Other(s.kind[x])) then Woken(s, x)
                       else if Woken(s, x) == None then None else s.turn
    ensures s'.pc[y] == if y == x then Left(s.pc[x].b)
                        else if s.pc[y].Asleep? && y in s.kind && Woken(s, x) == Some(s.kind[y])
                        then WantBowl(s.pc[y].b, true)
                        else s.pc[y]
  {
  }

  lemma LeaveAny(s: State, x: Creature, s': State, j: Kind)
    requires LocksOk(s) && Enabled(s, Leave(x)) && s' == Apply(s, Leave(x))
    ensures Any(s, j, Pending) ==> Any(s', j, Pending)
    ensures Any(s', j, Waits) ==> Any(s, j, Waits) && (Woken(s, x) == Some(j) ==> Any(s, j, IsDozing))
    ensures Any(s, j, Waits) ==> Any(s', j, Waits) || Any(s', j, Pending)
    ensures Any(s, j, IsDozing) ==> Any(s', j, Waits)
    ensures j == s.kind[x] ==> Any(s', j, Away)
  {
    hide Apply;
    hide OwnedBy;
    hide Woken;
    forall y | y in s.pc
      ensures At(s, y, j, Pending) ==> At(s', y, j, Pending)
      ensures At(s', y, j, Waits) ==> At(s, y, j, Waits) && (Woken(s, x) == Some(j) ==> At(s, y, j, IsDozing))
      ensures At(s, y, j, Waits) ==> At(s', y, j, Waits) || At(s', y, j, Pending)
      ensures At(s, y, j, IsDozing) ==> At(s', y, j, Waits)
    {
      LeaveMoves(s, x, s', y);
    }
    LeaveMoves(s, x, s', x);
    assert j == s.kind[x] ==> At(s', x, j, Away);
  }

  /** The creatures counted as sleeping are those that wait, and those woken that have not tested again. */
  lemma Sleepers(s: State, j: Kind)
    requires CountsOk(s)
    ensures Get(s.sleeping, j) > 0 ==> Any(s, j, Waits) || Any(s, j, Pending)
    ensures Any(s, j, Waits) ==> Get(s.sleeping, j) > 0
  {
    hide Those;
    CountZero(s.sleeping, s.kind, s.pc, CountsSleeping, j);
    SleepersAre(s, j);
  }

  lemma SleepersAre(s: State, j: Kind)
    ensures Those(s.kind, s.pc, j, CountsSleeping) != {} ==> Any(s, j, Waits) || Any(s, j, Pending)
    ensures Any(s, j, Waits) ==> Those(s.kind, s.pc, j, CountsSleeping) != {}
  {
    if Those(s.kind, s.pc, j, CountsSleeping) != {} {
      var x :| x in Those(s.kind, s.pc, j, CountsSleeping);
      assert At(s, x, j, Waits) || At(s, x, j, Pending);
    }
    if Any(s, j, Waits) {
      var x :| At(s, x, j, Waits);
      assert x in Those(s.kind, s.pc, j, CountsSleeping);
    }
  }

  lemma LeaveServed(s: State, x: Creature, lossy: bool)
    requires Inv(s) && Served(s, lossy) && Enabled(s, Leave(x)) && (lossy || !Misses(s, Leave(x)))
    ensures Served(Apply(s, Leave(x)), lossy)
  {
    hide Any;
    hide LocksOk;
    hide CountsOk;
    hide BowlsOk;
    hide Apply;
    var s', k := Apply(s, Leave(x)), s.kind[x];
    NotNegative(s);
    LeaverCounted(s, x);
    LeaveMoves(s, x, s', x);
    LeaveAny(s, x, s', Cat);
    LeaveAny(s, x, s', Mouse);
    Sleepers(s, Cat);
    Sleepers(s, Mouse);
  }

  lemma {:induction false} RunServed(states: seq<State>, acts: seq<Action>, k: nat, lossy: bool)
    requires IsRun(states, acts) && k < |states|
    requires lossy || forall m | 0 <= m < k :: !Misses(states[m], acts[m])
    ensures Served(states[k], lossy)
  {
    hide Apply;
    hide Enabled;
    hide Misses;
    if k > 0 {
      hide Served;
      hide LocksOk;
      hide CountsOk;
      hide BowlsOk;
      RunServed(states, acts, k - 1, lossy);
      RunInv(states, acts, k - 1);
      if acts[k - 1].Leave? {
        LeaveServed(states[k - 1], acts[k - 1].x, lossy);
      } else {
        StepServed(states[k - 1], acts[k - 1], lossy);
      }
    }
  }

  /** As long as no broadcast missed anybody, a sleeper is not alone: somebody else is in the middle of a visit. */
  lemma SleeperHasCompany(states: seq<State>, acts: seq<Action>, k: nat, x: Creature)
    requires IsRun(states, acts) && k < |states| && x in states[k].pc && states[k].pc[x].Asleep?
    requires forall m | 0 <= m < k :: !Misses(states[m], acts[m])
    ensures exists y :: y in states[k].pc && states[k].pc[y] != Out && !states[k].pc[y].Asleep?
  {
    hide Apply;
    hide Enabled;
    RunInv(states, acts, k);
    RunServed(states, acts, k, false);
    hide LocksOk;
    hide CountsOk;
    hide BowlsOk;
    var s := states[k];
    KindOf(s, x);
    if Eaters(s) {
      var y := EaterIs(s);
      assert s.pc[y] != Out && !s.pc[y].Asleep?;
    } else {
      assert At(s, x, s.kind[x], Waits);
      NotNegative(s);
      var y :| At(s, y, s.turn.value, Pending);
      assert s.pc[y] != Out && !s.pc[y].Asleep?;
    }
  }

  lemma KindOf(s: State, x: Creature)
    requires LocksOk(s) && x in s.pc
    ensures x in s.kind
  {
    hide OwnedBy;
  }

  lemma EaterIs(s: State) returns (y: Creature)
    requires CountsOk(s) && Eaters(s)
    ensures y in s.pc && CountsEating(s.pc[y])
  {
    if s.eating.cat > 0 {
      y :| y in Those(s.kind, s.pc, Cat, CountsEating);
    } else {
      y :| y in Those(s.kind, s.pc, Mouse, CountsEating);
    }
  }

  /** So when all are asleep, some broadcast missed somebody. */
  lemma SomebodyWasMissed(states: seq<State>, acts: seq<Action>, k: nat)
    requires IsRun(states, acts) && k < |states| && states[k].pc != map[] && AllAsleep(states[k])
    ensures exists m :: 0 <= m < k && Misses(states[m], acts[m])
  {
    hide Apply;
    hide Enabled;
    hide Misses;
    var x :| x in states[k].pc;
    if forall m | 0 <= m < k :: !Misses(states[m], acts[m]) {
      SleeperHasCompany(states, acts, k, x);
    }
  }

  /**
   * In every run, when all are asleep it is a wakeup that was lost: some sleeper is of the kind whose turn it is, and
   * the condition it waits for holds.
   */
  lemma AllAsleepIsLostWakeup(states: seq<State>, acts: seq<Action>, k: nat)
    requires IsRun(states, acts) && k < |states| && states[k].pc != map[] && AllAsleep(states[k])
    ensures exists x ::
              && x in states[k].pc && x in states[k].kind && states[k].turn == Some(states[k].kind[x])
              && !MustWait(states[k], states[k].kind[x])
  {
    hide Apply;
    hide Enabled;
    RunInv(states, acts, k);
    RunServed(states, acts, k, true);
    hide LocksOk;
    hide CountsOk;
    hide BowlsOk;
    var s := states[k];
    var x :| x in s.pc;
    KindOf(s, x);
    assert At(s, x, s.kind[x], Waits);
    NotNegative(s);
    if Eaters(s) {
      var y := EaterIs(s);
      assert false;
    }
    var y :| At(s, y, s.turn.value, Waits);
  }

  // ---- turns ----

  /** What after_eating does about the turn and the sleepers. */
  lemma LeavingWakes(states: seq<State>, acts: seq<Action>, k: nat, x: Creature)
    requires IsRun(states, acts) && k < |acts| && acts[k] == Leave(x)
    ensures x in states[k].kind
    ensures var s, s', me := states[k], states[k + 1], states[k].kind[x];
            if Get(s'.eating, me) == 0 && Get(s.sleeping, Other(me)) > 0 then
              && s'.turn == Some(Other(me)) && !Any(s', Other(me), IsAsleep)
              && (Any(s', me, IsAsleep) <==> Any(s, me, IsAsleep))
            else if Get(s'.eating, me) == 0 && Get(s.sleeping, me) == 0 then
              s'.turn == None && !Any(s', me, IsAsleep) && !Any(s', Other(me), IsAsleep)
            else
              && s'.turn == s.turn && !Any(s', me, IsAsleep)
              && (Any(s', Other(me), IsAsleep) <==> Any(s, Other(me), IsAsleep))
  {
    hide Apply;
    RunInv(states, acts, k);
    hide LocksOk;
    hide BowlsOk;
    hide CountsOk;
    var s, s' := states[k], states[k + 1];
    NotNegative(s);
    LeaveMoves(s, x, s', x);
    Sleepers(s, Cat);
    Sleepers(s, Mouse);
    LeaveAsleep(s, x, s', Cat);
    LeaveAsleep(s, x, s', Mouse);
  }

  predicate IsAsleep(pc: Pc) {
    pc.Asleep?
  }

  lemma LeaveAsleep(s: State, x: Creature, s': State, j: Kind)
    requires Enabled(s, Leave(x)) && s' == Apply(s, Leave(x))
    ensures Woken(s, x) == Some(j) ==> !Any(s', j, IsAsleep)
    ensures Woken(s, x) != Some(j) ==> (Any(s', j, IsAsleep) <==> Any(s, j, IsAsleep))
    ensures Any(s', j, IsAsleep) ==> Any(s, j, Waits)
  {
    hide Apply;
    hide Woken;
    forall y | y in s.pc
      ensures At(s', y, j, IsAsleep) ==> At(s, y, j, IsAsleep) && At(s, y, j, Waits) && Woken(s, x) != Some(j)
      ensures At(s, y, j, IsAsleep) && Woken(s, x) != Some(j) ==> At(s', y, j, IsAsleep)
    {
      LeaveMoves(s, x, s', y);
    }
    LeaveMoves(s, x, s', x);
  }

  /** It is the turn of kind k and nobody is eating. */
  predicate NextIs(s: State, k: Kind) {
    s.turn == Some(k) && s.eating == Counts(0, 0)
  }

  /** The step lets in one of kind k. */
  predicate LetsIn(s: State, a: Action, k: Kind) {
    a.Admit? && a.x in s.kind && s.kind[a.x] == k
  }

  lemma NextStays(s: State, a: Action, k: Kind)
    requires CountsOk(s) && NextIs(s, k) && Enabled(s, a)
    ensures NextIs(Apply(s, a), k) || LetsIn(s, a, k)
  {
    hide CountsOk;
    if a.Leave? {
      LeaverCounted(s, a.x);
    }
  }

  lemma {:induction false} NextWaits(states: seq<State>, acts: seq<Action>, j: nat, m: nat, k: Kind)
    requires IsRun(states, acts) && j <= m < |states| && NextIs(states[j], k)
    requires forall i | j <= i < m :: !LetsIn(states[i], acts[i], k)
    ensures NextIs(states[m], k)
  {
    hide Apply;
    hide Enabled;
    hide Inv;
    if m > j {
      NextWaits(states, acts, j, m - 1, k);
      CountsHold(states, acts, m - 1);
      NextStays(states[m - 1], acts[m - 1], k);
    }
  }

  lemma CountsHold(states: seq<State>, acts: seq<Action>, k: nat)
    requires IsRun(states, acts) && k < |states|
    ensures CountsOk(states[k]) && OneKind(states[k])
  {
    hide Apply;
    hide Enabled;
    hide CountsOk;
    RunInv(states, acts, k);
  }

  /**
   * In every run the kinds take turns: when the last one of a kind leaves while some of the other kind sleep, nobody of
   * its kind is let in again before one of the other kind has been.
   */
  lemma TakesTurns(states: seq<State>, acts: seq<Action>, j: nat, m: nat, x: Creature) returns (i: nat)
    requires IsRun(states, acts) && j < m < |acts| && acts[j] == Leave(x) && x in states[j].kind
    requires Get(states[j].eating, states[j].kind[x]) == 1 && Get(states[j].sleeping, Other(states[j].kind[x])) > 0
    requires LetsIn(states[m], acts[m], states[j].kind[x])
    ensures j < i < m && LetsIn(states[i], acts[i], Other(states[j].kind[x]))
  {
    hide Apply;
    var me := states[j].kind[x];
    CountsHold(states, acts, j);
    NotNegative(states[j]);
    LeaveMoves(states[j], x, states[j + 1], x);
    hide CountsOk;
    if forall i | j + 1 <= i < m :: !LetsIn(states[i], acts[i], Other(me)) {
      NextWaits(states, acts, j + 1, m, Other(me));
    }
    i :| j + 1 <= i < m && LetsIn(states[i], acts[i], Other(me));
  }

  /** Whoever comes when it is nobody's turn makes it the turn of their kind, and nobody else who comes changes it. */
  lemma ArrivalTakesTurn(states: seq<State>, acts: seq<Action>, k: nat, x: Creature)
    requires IsRun(states, acts) && k < |acts| && acts[k] == ReleaseFirst(x)
    ensures x in states[k].kind
    ensures states[k + 1].turn == if states[k].turn == None then Some(states[k].kind[x]) else states[k].turn
  {
  }
}
