/**
 * Cats and mice (kern/synchprobs/catmouse_synch.c:107-228) against the checks of kern/synchprobs/catmouse.c:259-418,
 * as steps between lock operations, for any number of creatures and bowls.
 */
module CatMouse {
  import opened Common

  type Creature = nat

  datatype Kind = Cat | Mouse

  datatype Pc =
    | Out
    | First(b: nat)                 // before_eating, holding set_catmouse_eat
    | WantBowl(b: nat, slept: bool) // about to take the bowl's lock, at first or on return from cv_wait
    | HasBowl(b: nat, slept: bool)  // holding the bowl's lock
    | Testing(b: nat)               // holding the bowl's lock and set_catmouse_eat
    | Dozing(b: nat)                // counted as sleeping, holding the bowl's lock
    | Asleep(b: nat)                // in cv_wait
    | Admitted(b: nat)              // counted as eating, holding the bowl's lock
    | Eating(b: nat)                // inside cat_eat or mouse_eat
    | Fed(b: nat)                   // done eating, holding the bowl's lock
    | Leaving(b: nat)               // after_eating, holding both locks
    | Left(b: nat)                  // after_eating, holding the bowl's lock

  /** A pair of counters, one for each kind. */
  datatype Counts = Counts(cat: int, mouse: int)

  function Get(c: Counts, k: Kind): int {
    match k
    case Cat => c.cat
    case Mouse => c.mouse
  }

  function Add(c: Counts, k: Kind, n: int): Counts {
    match k
    case Cat => c.(cat := c.cat + n)
    case Mouse => c.(mouse := c.mouse + n)
  }

  function Other(k: Kind): Kind {
    match k
    case Cat => Mouse
    case Mouse => Cat
  }

  datatype State = State(
    kind: map<Creature, Kind>,
    pc: map<Creature, Pc>,
    setLock: Option<Creature>,         // set_catmouse_eat
    bowlLock: seq<Option<Creature>>,   // lk_for_bowls
    eating: Counts, sleeping: Counts,  // catsEating and mouseEating, catsSleeping and mouseSleeping
    turn: Option<Kind>,                // cat_mouse_turn
    checked: Counts,                   // eating_cats_count and eating_mice_count of the checker
    bowls: seq<Option<Kind>>)          // the checker's bowls

  datatype Action =
    | Arrive(x: Creature, b: nat) | ReleaseFirst(x: Creature) | TakeBowl(x: Creature) | TakeSet(x: Creature)
    | Admit(x: Creature) | Doze(x: Creature) | Sleep(x: Creature) | EatStart(x: Creature) | EatEnd(x: Creature)
    | TakeSetAgain(x: Creature) | Leave(x: Creature) | Done(x: Creature)

  /** The loop condition of before_eating. */
  predicate MustWait(s: State, k: Kind) {
    s.turn == Some(Other(k)) || Get(s.eating, Other(k)) > 0
  }

  predicate Enabled(s: State, a: Action) {
    && a.x in s.pc && a.x in s.kind && |s.bowls| == |s.bowlLock|
    && match a
       case Arrive(x, b) => s.pc[x] == Out && b < |s.bowls| && s.setLock == None
       case ReleaseFirst(x) => s.pc[x].First?
       case TakeBowl(x) => s.pc[x].WantBowl? && s.pc[x].b < |s.bowls| && s.bowlLock[s.pc[x].b] == None
       case TakeSet(x) => s.pc[x].HasBowl? && s.setLock == None
       case Admit(x) => s.pc[x].Testing? && !MustWait(s, s.kind[x])
       case Doze(x) => s.pc[x].Testing? && MustWait(s, s.kind[x])
       case Sleep(x) => s.pc[x].Dozing? && s.pc[x].b < |s.bowls|
       case EatStart(x) => s.pc[x].Admitted? && s.pc[x].b < |s.bowls|
       case EatEnd(x) => s.pc[x].Eating? && s.pc[x].b < |s.bowls|
       case TakeSetAgain(x) => s.pc[x].Fed? && s.setLock == None
       case Leave(x) => s.pc[x].Leaving?
       case Done(x) => s.pc[x].Left? && s.pc[x].b < |s.bowls|
  }

  /** cv_broadcast: sleepers of kind k go on to retake their bowls' locks. */
  function Wake(s: State, k: Kind): map<Creature, Pc> {
    map x | x in s.pc ::
      if s.pc[x].Asleep? && x in s.kind && s.kind[x] == k then WantBowl(s.pc[x].b, true) else s.pc[x]
  }

  /** after_eating, up to the release of set_catmouse_eat. */
  function AfterEating(s: State, x: Creature): State
    requires x in s.pc && x in s.kind && s.pc[x].Leaving?
  {
    var k, eating := s.kind[x], Add(s.eating, s.kind[x], -1);
    var s1 := s.(eating := eating, setLock := None, pc := s.pc[x := Left(s.pc[x].b)]);
    if Get(eating, k) == 0 && Get(s.sleeping, Other(k)) > 0 then s1.(turn := Some(Other(k)), pc := Wake(s1, Other(k)))
    else if Get(eating, k) == 0 && Get(s.sleeping, Other(k)) == 0 && Get(s.sleeping, k) == 0 then s1.(turn := None)
    else s1.(pc := Wake(s1, k))
  }

  function Apply(s: State, a: Action): State
    requires Enabled(s, a)
  {
    match a
    case Arrive(x, b) => s.(pc := s.pc[x := First(b)], setLock := Some(x))
    case ReleaseFirst(x) =>
      s.(pc := s.pc[x := WantBowl(s.pc[x].b, false)], setLock := None,
         turn := if s.turn == None then Some(s.kind[x]) else s.turn)
    case TakeBowl(x) =>
      s.(pc := s.pc[x := HasBowl(s.pc[x].b, s.pc[x].slept)], bowlLock := s.bowlLock[s.pc[x].b := Some(x)])
    case TakeSet(x) =>
      s.(pc := s.pc[x := Testing(s.pc[x].b)], setLock := Some(x),
         sleeping := if s.pc[x].slept then Add(s.sleeping, s.kind[x], -1) else s.sleeping)
    case Admit(x) => s.(pc := s.pc[x := Admitted(s.pc[x].b)], setLock := None, eating := Add(s.eating, s.kind[x], 1))
    case Doze(x) => s.(pc := s.pc[x := Dozing(s.pc[x].b)], setLock := None, sleeping := Add(s.sleeping, s.kind[x], 1))
    case Sleep(x) => s.(pc := s.pc[x := Asleep(s.pc[x].b)], bowlLock := s.bowlLock[s.pc[x].b := None])
    case EatStart(x) =>
      s.(pc := s.pc[x := Eating(s.pc[x].b)], checked := Add(s.checked, s.kind[x], 1),
         bowls := s.bowls[s.pc[x].b := Some(s.kind[x])])
    case EatEnd(x) =>
      s.(pc := s.pc[x := Fed(s.pc[x].b)], checked := Add(s.checked, s.kind[x], -1), bowls := s.bowls[s.pc[x].b := None])
    case TakeSetAgain(x) => s.(pc := s.pc[x := Leaving(s.pc[x].b)], setLock := Some(x))
    case Leave(x) => AfterEating(s, x)
    case Done(x) => s.(pc := s.pc[x := Out], bowlLock := s.bowlLock[s.pc[x].b := None])
  }

  /** The checks and assertions of cat_eat and mouse_eat. */
  predicate ChecksPass(s: State, a: Action)
    requires Enabled(s, a)
  {
    match a
    case EatStart(x) => s.bowls[s.pc[x].b] == None && Get(s.checked, Other(s.kind[x])) == 0
    case EatEnd(x) => s.bowls[s.pc[x].b] == Some(s.kind[x]) && Get(s.checked, s.kind[x]) > 0
    case _ => true
  }

  predicate HoldsSet(pc: Pc) {
    pc.First? || pc.Testing? || pc.Leaving?
  }

  predicate HoldsBowl(pc: Pc, b: nat) {
    && (pc.HasBowl? || pc.Testing? || pc.Dozing? || pc.Admitted? || pc.Eating? || pc.Fed? || pc.Leaving? || pc.Left?)
    && pc.b == b
  }

  /** Counted in catsEating or mouseEating; counted as sleeping; counted by the checker. */
  predicate CountsEating(pc: Pc) {
    pc.Admitted? || pc.Eating? || pc.Fed? || pc.Leaving?
  }

  predicate CountsSleeping(pc: Pc) {
    pc.Dozing? || pc.Asleep? || ((pc.WantBowl? || pc.HasBowl?) && pc.slept)
  }

  predicate CountsChecked(pc: Pc) {
    pc.Eating?
  }

  /** The creatures of kind k at the places the predicate picks out. */
  function Those(kind: map<Creature, Kind>, pc: map<Creature, Pc>, k: Kind, where_: Pc -> bool): set<Creature> {
    set x | x in pc && x in kind && kind[x] == k && where_(pc[x])
  }

  ghost predicate Counted(c: Counts, kind: map<Creature, Kind>, pc: map<Creature, Pc>, where_: Pc -> bool) {
    c.cat == |Those(kind, pc, Cat, where_)| && c.mouse == |Those(kind, pc, Mouse, where_)|
  }

  /** A lock is held by exactly the creature whose place in the code says so. */
  ghost predicate OwnedBy(owner: Option<Creature>, pc: map<Creature, Pc>, holds: Pc -> bool) {
    forall x: Creature :: owner == Some(x) <==> x in pc && holds(pc[x])
  }

  ghost predicate LocksOk(s: State) {
    && |s.bowls| == |s.bowlLock| && s.pc.Keys == s.kind.Keys && OwnedBy(s.setLock, s.pc, HoldsSet)
    && (forall b: nat | b < |s.bowlLock| :: OwnedBy(s.bowlLock[b], s.pc, p => HoldsBowl(p, b)))
    && (forall x: Creature | x in s.pc && s.pc[x] != Out :: s.pc[x].b < |s.bowls|)
  }

  ghost predicate CountsOk(s: State) {
    && Counted(s.eating, s.kind, s.pc, CountsEating) && Counted(s.sleeping, s.kind, s.pc, CountsSleeping)
    && Counted(s.checked, s.kind, s.pc, CountsChecked)
  }

  /** The checker's bowls show exactly who is eating. */
  ghost predicate BowlsOk(s: State) {
    && (forall x: Creature | x in s.pc && x in s.kind && s.pc[x].Eating? && s.pc[x].b < |s.bowls| ::
          s.bowls[s.pc[x].b] == Some(s.kind[x]))
    && (forall b: nat | b < |s.bowls| && s.bowls[b].Some? :: exists x :: x in s.pc && s.pc[x] == Eating(b))
  }

  /** Cats and mice are never admitted together. */
  predicate OneKind(s: State) {
    s.eating.cat == 0 || s.eating.mouse == 0
  }

  ghost predicate Inv(s: State) {
    LocksOk(s) && CountsOk(s) && BowlsOk(s) && OneKind(s)
  }

  ghost predicate Init(s: State) {
    && s.pc.Keys == s.kind.Keys && (forall x | x in s.pc :: s.pc[x] == Out) && |s.bowls| == |s.bowlLock|
    && s.setLock == None && (forall b | 0 <= b < |s.bowls| :: s.bowlLock[b] == None && s.bowls[b] == None)
    && s.eating == s.sleeping == s.checked == Counts(0, 0) && s.turn == None
  }

  lemma InitInv(s: State)
    requires Init(s)
    ensures Inv(s)
  {
    assert forall k, p: Pc -> bool | !p(Out) :: Those(s.kind, s.pc, k, p) == {};
  }

  function One(b: bool): int {
    if b then 1 else 0
  }

  lemma ThoseSet(kind: map<Creature, Kind>, pc: map<Creature, Pc>, x: Creature, p: Pc, k: Kind, where_: Pc -> bool)
    requires x in pc && x in kind
    ensures |Those(kind, pc[x := p], k, where_)| ==
              |Those(kind, pc, k, where_)| + if kind[x] == k then One(where_(p)) - One(where_(pc[x])) else 0
  {
    hide Those;
    OthersThere(kind, pc, x, p, k, where_);
    WithOne(Those(kind, pc, k, where_), x);
    WithOne(Those(kind, pc[x := p], k, where_), x);
  }

  lemma OthersThere(kind: map<Creature, Kind>, pc: map<Creature, Pc>, x: Creature, p: Pc, k: Kind, where_: Pc -> bool)
    requires x in pc && x in kind
    ensures Those(kind, pc[x := p], k, where_) - {x} == Those(kind, pc, k, where_) - {x}
    ensures x in Those(kind, pc, k, where_) <==> kind[x] == k && where_(pc[x])
    ensures x in Those(kind, pc[x := p], k, where_) <==> kind[x] == k && where_(p)
  {
  }

  lemma WithOne(s: set<Creature>, x: Creature)
    ensures |s| == |s - {x}| + One(x in s)
  {
    if x in s {
      assert s == (s - {x}) + {x};
    } else {
      assert s == s - {x};
    }
  }

  /** One creature moving changes its kind's count by what it entered minus what it left. */
  lemma CountedSet(c: Counts, c': Counts, kind: map<Creature, Kind>, pc: map<Creature, Pc>, x: Creature, p: Pc,
                   where_: Pc -> bool)
    requires Counted(c, kind, pc, where_) && x in pc && x in kind
    requires c' == Add(c, kind[x], One(where_(p)) - One(where_(pc[x])))
    ensures Counted(c', kind, pc[x := p], where_)
  {
    hide Those;
    ThoseSet(kind, pc, x, p, Cat, where_);
    ThoseSet(kind, pc, x, p, Mouse, where_);
  }

  lemma CountedWake(c: Counts, s: State, k: Kind, where_: Pc -> bool)
    requires Counted(c, s.kind, s.pc, where_) && forall b: nat :: where_(Asleep(b)) == where_(WantBowl(b, true))
    ensures Counted(c, s.kind, Wake(s, k), where_)
  {
    assert Those(s.kind, Wake(s, k), Cat, where_) == Those(s.kind, s.pc, Cat, where_);
    assert Those(s.kind, Wake(s, k), Mouse, where_) == Those(s.kind, s.pc, Mouse, where_);
  }

  /** The place a creature moves to by an action. */
  function Goes(s: State, a: Action): Pc
    requires Enabled(s, a)
  {
    match a
    case Arrive(x, b) => First(b)
    case ReleaseFirst(x) => WantBowl(s.pc[x].b, false)
    case TakeBowl(x) => HasBowl(s.pc[x].b, s.pc[x].slept)
    case TakeSet(x) => Testing(s.pc[x].b)
    case Admit(x) => Admitted(s.pc[x].b)
    case Doze(x) => Dozing(s.pc[x].b)
    case Sleep(x) => Asleep(s.pc[x].b)
    case EatStart(x) => Eating(s.pc[x].b)
    case EatEnd(x) => Fed(s.pc[x].b)
    case TakeSetAgain(x) => Leaving(s.pc[x].b)
    case Leave(x) => Left(s.pc[x].b)
    case Done(x) => Out
  }

  lemma OwnedSet(owner: Option<Creature>, owner': Option<Creature>, pc: map<Creature, Pc>, x: Creature, p: Pc,
                 holds: Pc -> bool)
    requires OwnedBy(owner, pc, holds) && x in pc && (holds(p) ==> owner == None || owner == Some(x))
    requires owner' == if holds(p) then Some(x) else if owner == Some(x) then None else owner
    ensures OwnedBy(owner', pc[x := p], holds)
  {
  }

  lemma Owner(owner: Option<Creature>, pc: map<Creature, Pc>, x: Creature, holds: Pc -> bool)
    requires OwnedBy(owner, pc, holds)
    ensures owner == Some(x) <==> x in pc && holds(pc[x])
  {
  }

  lemma OwnedWake(owner: Option<Creature>, s: State, k: Kind, holds: Pc -> bool)
    requires OwnedBy(owner, s.pc, holds) && forall b: nat :: !holds(Asleep(b)) && !holds(WantBowl(b, true))
    ensures OwnedBy(owner, Wake(s, k), holds)
  {
  }

  lemma StepBowlLock(s: State, a: Action, s': State, b: nat)
    requires LocksOk(s) && Enabled(s, a) && s' == Apply(s, a) && !a.Leave? && b < |s.bowlLock|
    ensures |s'.bowlLock| == |s.bowlLock| && OwnedBy(s'.bowlLock[b], s'.pc, p => HoldsBowl(p, b))
  {
    hide OwnedBy;
    hide MustWait;
    Owner(s.bowlLock[b], s.pc, a.x, p => HoldsBowl(p, b));
    OwnedSet(s.bowlLock[b], s'.bowlLock[b], s.pc, a.x, Goes(s, a), p => HoldsBowl(p, b));
  }

  lemma StepSetLock(s: State, a: Action, s': State)
    requires LocksOk(s) && Enabled(s, a) && s' == Apply(s, a) && !a.Leave?
    ensures OwnedBy(s'.setLock, s'.pc, HoldsSet)
  {
    hide OwnedBy;
    hide MustWait;
    Owner(s.setLock, s.pc, a.x, HoldsSet);
    OwnedSet(s.setLock, s'.setLock, s.pc, a.x, Goes(s, a), HoldsSet);
  }

  lemma StepLocks(s: State, a: Action, s': State)
    requires LocksOk(s) && Enabled(s, a) && s' == Apply(s, a) && !a.Leave?
    ensures LocksOk(s')
  {
    hide OwnedBy;
    hide MustWait;
    StepSetLock(s, a, s');
    forall b: nat | b < |s'.bowlLock|
      ensures OwnedBy(s'.bowlLock[b], s'.pc, p => HoldsBowl(p, b))
    {
      StepBowlLock(s, a, s', b);
    }
  }

  lemma StepCounts(s: State, a: Action, s': State)
    requires CountsOk(s) && Enabled(s, a) && s' == Apply(s, a) && !a.Leave?
    ensures CountsOk(s')
  {
    hide Counted;
    hide MustWait;
    var p := Goes(s, a);
    assert s'.pc == s.pc[a.x := p];
    CountedSet(s.eating, s'.eating, s.kind, s.pc, a.x, p, CountsEating);
    CountedSet(s.sleeping, s'.sleeping, s.kind, s.pc, a.x, p, CountsSleeping);
    CountedSet(s.checked, s'.checked, s.kind, s.pc, a.x, p, CountsChecked);
  }

  /** after_eating before it decides on the turn. */
  function Departed(s: State, x: Creature): State
    requires x in s.pc && x in s.kind && s.pc[x].Leaving?
  {
    s.(eating := Add(s.eating, s.kind[x], -1), setLock := None, pc := s.pc[x := Left(s.pc[x].b)])
  }

  lemma DepartedCounts(s: State, x: Creature)
    requires CountsOk(s) && x in s.pc && x in s.kind && s.pc[x].Leaving?
    ensures CountsOk(Departed(s, x))
  {
    hide Counted;
    var p := Left(s.pc[x].b);
    CountedSet(s.eating, Add(s.eating, s.kind[x], -1), s.kind, s.pc, x, p, CountsEating);
    CountedSet(s.sleeping, s.sleeping, s.kind, s.pc, x, p, CountsSleeping);
    CountedSet(s.checked, s.checked, s.kind, s.pc, x, p, CountsChecked);
  }

  lemma DepartedLocks(s: State, x: Creature)
    requires LocksOk(s) && x in s.pc && x in s.kind && s.pc[x].Leaving?
    ensures LocksOk(Departed(s, x))
  {
    hide OwnedBy;
    var p := Left(s.pc[x].b);
    Owner(s.setLock, s.pc, x, HoldsSet);
    OwnedSet(s.setLock, None, s.pc, x, p, HoldsSet);
    forall b: nat | b < |s.bowlLock|
      ensures OwnedBy(s.bowlLock[b], s.pc[x := p], q => HoldsBowl(q, b))
    {
      Owner(s.bowlLock[b], s.pc, x, q => HoldsBowl(q, b));
      OwnedSet(s.bowlLock[b], s.bowlLock[b], s.pc, x, p, q => HoldsBowl(q, b));
    }
  }

  lemma TurnLocks(s: State, t: Option<Kind>)
    requires LocksOk(s) && CountsOk(s)
    ensures LocksOk(s.(turn := t)) && CountsOk(s.(turn := t))
  {
    hide OwnedBy;
    hide Counted;
  }

  lemma LeaveKeeps(s: State, x: Creature, s': State)
    requires LocksOk(s) && CountsOk(s) && Enabled(s, Leave(x)) && s' == Apply(s, Leave(x))
    ensures LocksOk(s') && CountsOk(s')
  {
    hide LocksOk;
    hide CountsOk;
    hide Wake;
    var s1, k := Departed(s, x), s.kind[x];
    DepartedLocks(s, x);
    DepartedCounts(s, x);
    WakeLocks(s1, k);
    WakeCounts(s1, k);
    WakeLocks(s1, Other(k));
    WakeCounts(s1, Other(k));
    TurnLocks(s1, None);
    TurnLocks(s1.(pc := Wake(s1, Other(k))), Some(Other(k)));
  }

  lemma WakeLocks(s: State, k: Kind)
    requires LocksOk(s)
    ensures LocksOk(s.(pc := Wake(s, k)))
  {
    hide OwnedBy;
    OwnedWake(s.setLock, s, k, HoldsSet);
    forall b: nat | b < |s.bowlLock|
      ensures OwnedBy(s.bowlLock[b], Wake(s, k), q => HoldsBowl(q, b))
    {
      OwnedWake(s.bowlLock[b], s, k, q => HoldsBowl(q, b));
    }
  }

  lemma WakeCounts(s: State, k: Kind)
    requires CountsOk(s)
    ensures CountsOk(s.(pc := Wake(s, k)))
  {
    hide Counted;
    CountedWake(s.eating, s, k, CountsEating);
    CountedWake(s.sleeping, s, k, CountsSleeping);
    CountedWake(s.checked, s, k, CountsChecked);
  }

  lemma SoleEater(s: State, x: Creature, y: Creature)
    requires LocksOk(s) && x in s.pc && y in s.pc && s.pc[x] != Out && HoldsBowl(s.pc[x], s.pc[x].b)
    requires s.pc[y] == Eating(s.pc[x].b)
    ensures x == y
  {
    hide OwnedBy;
    var b := s.pc[x].b;
    Owner(s.bowlLock[b], s.pc, x, q => HoldsBowl(q, b));
    Owner(s.bowlLock[b], s.pc, y, q => HoldsBowl(q, b));
  }

  /** A step moves nobody but its own creature into or out of eating. */
  ghost predicate OthersEat(s: State, s': State, x: Creature) {
    && s'.pc.Keys == s.pc.Keys && s'.kind == s.kind && |s'.bowls| == |s.bowls|
    && forall y: Creature | y in s.pc && y != x && (s.pc[y].Eating? || s'.pc[y].Eating?) :: s'.pc[y] == s.pc[y]
  }

  lemma StepOthersEat(s: State, a: Action, s': State)
    requires Enabled(s, a) && s' == Apply(s, a)
    ensures OthersEat(s, s', a.x)
  {
    hide MustWait;
  }

  lemma EatBowls(s: State, s': State, x: Creature, starts: bool)
    requires LocksOk(s) && BowlsOk(s) && OthersEat(s, s', x) && x in s.pc && x in s.kind && s.pc[x] != Out
    requires HoldsBowl(s.pc[x], s.pc[x].b) && s.pc[x].b < |s.bowls|
    requires if starts then s'.pc[x] == Eating(s.pc[x].b) else !s'.pc[x].Eating?
    requires s'.bowls == s.bowls[s.pc[x].b := if starts then Some(s.kind[x]) else None]
    ensures BowlsOk(s')
  {
    hide OwnedBy;
    var c := s.pc[x].b;
    forall y: Creature | y in s'.pc && y in s'.kind && y != x && s'.pc[y].Eating? && s'.pc[y].b < |s'.bowls|
      ensures s'.bowls[s'.pc[y].b] == Some(s'.kind[y])
    {
      if s'.pc[y].b == c {
        SoleEater(s, x, y);
      }
    }
    forall b: nat | b < |s'.bowls| && s'.bowls[b].Some?
      ensures exists y :: y in s'.pc && s'.pc[y] == Eating(b)
    {
      if b == c {
        assert s'.pc[x] == Eating(b);
      } else {
        var y :| y in s.pc && s.pc[y] == Eating(b);
        assert s'.pc[y] == Eating(b);
      }
    }
  }

  lemma SameBowls(s: State, s': State, x: Creature)
    requires BowlsOk(s) && OthersEat(s, s', x) && x in s.pc && !s.pc[x].Eating? && !s'.pc[x].Eating?
          && s'.bowls == s.bowls
    ensures BowlsOk(s')
  {
    forall b: nat | b < |s'.bowls| && s'.bowls[b].Some?
      ensures exists y :: y in s'.pc && s'.pc[y] == Eating(b)
    {
      var y :| y in s.pc && s.pc[y] == Eating(b);
      assert s'.pc[y] == Eating(b);
    }
  }

  lemma StepBowls(s: State, a: Action, s': State)
    requires LocksOk(s) && BowlsOk(s) && Enabled(s, a) && s' == Apply(s, a)
    ensures BowlsOk(s')
  {
    hide LocksOk;
    hide BowlsOk;
    hide OthersEat;
    hide MustWait;
    StepOthersEat(s, a, s');
    if a.EatStart? {
      EatBowls(s, s', a.x, true);
    } else if a.EatEnd? {
      EatBowls(s, s', a.x, false);
    } else {
      SameBowls(s, s', a.x);
    }
  }

  /** Counters are never negative, and zero only when nobody is counted. */
  lemma CountZero(c: Counts, kind: map<Creature, Kind>, pc: map<Creature, Pc>, where_: Pc -> bool, k: Kind)
    requires Counted(c, kind, pc, where_)
    ensures Get(c, k) >= 0 && (Get(c, k) == 0 <==> Those(kind, pc, k, where_) == {})
  {
  }

  lemma StepOneKind(s: State, a: Action, s': State)
    requires CountsOk(s) && OneKind(s) && Enabled(s, a) && s' == Apply(s, a)
    ensures OneKind(s')
  {
    hide Counted;
    CountZero(s.eating, s.kind, s.pc, CountsEating, Cat);
    CountZero(s.eating, s.kind, s.pc, CountsEating, Mouse);
    if a.Leave? {
      LeaverCounted(s, a.x);
    }
  }

  lemma LeaverCounted(s: State, x: Creature)
    requires CountsOk(s) && x in s.pc && x in s.kind && CountsEating(s.pc[x])
    ensures Get(s.eating, s.kind[x]) > 0
  {
    assert x in Those(s.kind, s.pc, s.kind[x], CountsEating);
  }

  lemma StepKeeps(s: State, a: Action)
    requires Inv(s) && Enabled(s, a)
    ensures Inv(Apply(s, a))
  {
    hide LocksOk;
    hide CountsOk;
    hide BowlsOk;
    hide OneKind;
    var s' := Apply(s, a);
    if a.Leave? {
      LeaveKeeps(s, a.x, s');
    } else {
      StepLocks(s, a, s');
      StepCounts(s, a, s');
    }
    StepBowls(s, a, s');
    StepOneKind(s, a, s');
  }

  ghost predicate IsRun(states: seq<State>, acts: seq<Action>) {
    && |states| == |acts| + 1 && Init(states[0])
    && forall k | 0 <= k < |acts| :: Enabled(states[k], acts[k]) && states[k + 1] == Apply(states[k], acts[k])
  }

  lemma {:induction false} RunInv(states: seq<State>, acts: seq<Action>, k: nat)
    requires IsRun(states, acts) && k < |states|
    ensures Inv(states[k])
  {
    hide Apply;
    hide Enabled;
    if k == 0 {
      InitInv(states[0]);
    } else {
      hide Inv;
      RunInv(states, acts, k - 1);
      StepKeeps(states[k - 1], acts[k - 1]);
    }
  }

  /** Whoever the checker counts as eating has been admitted. */
  lemma CheckedAreAdmitted(s: State, k: Kind)
    requires CountsOk(s)
    ensures 0 <= Get(s.checked, k) <= Get(s.eating, k)
  {
    var a, b := Those(s.kind, s.pc, k, CountsChecked), Those(s.kind, s.pc, k, CountsEating);
    assert a <= b;
    SubsetSize(a, b);
  }

  lemma {:induction false} SubsetSize(a: set<Creature>, b: set<Creature>)
    requires a <= b
    ensures |a| <= |b|
  {
    if a != {} {
      var x :| x in a;
      SubsetSize(a - {x}, b - {x});
    }
  }

  /** In every run the checks of cat_eat and mouse_eat pass, so their panics and assertions are unreachable. */
  lemma ChecksAlwaysPass(states: seq<State>, acts: seq<Action>, k: nat)
    requires IsRun(states, acts) && k < |acts|
    ensures Enabled(states[k], acts[k]) && ChecksPass(states[k], acts[k])
  {
    RunInv(states, acts, k);
    var s, a := states[k], acts[k];
    hide OwnedBy;
    hide Counted;
    hide Apply;
    if a.EatStart? {
      var b, kind := s.pc[a.x].b, s.kind[a.x];
      if s.bowls[b].Some? {
        var y :| y in s.pc && s.pc[y] == Eating(b);
        SoleEater(s, a.x, y);
      }
      LeaverCounted(s, a.x);
      CheckedAreAdmitted(s, Other(kind));
    } else if a.EatEnd? {
      EaterChecked(s, a.x);
    }
  }

  lemma EaterChecked(s: State, x: Creature)
    requires CountsOk(s) && x in s.pc && x in s.kind && s.pc[x].Eating?
    ensures Get(s.checked, s.kind[x]) > 0
  {
    assert x in Those(s.kind, s.pc, s.kind[x], CountsChecked);
  }

  /** In every run cats and mice never eat at the same time, and no two creatures eat from one bowl. */
  lemma NeverTogether(states: seq<State>, acts: seq<Action>, k: nat, x: Creature, y: Creature)
    requires IsRun(states, acts) && k < |states| && x in states[k].pc && y in states[k].pc && x != y
    requires states[k].pc[x].Eating? && states[k].pc[y].Eating?
    ensures x in states[k].kind && y in states[k].kind && states[k].kind[x] == states[k].kind[y]
    ensures states[k].pc[x].b != states[k].pc[y].b
  {
    hide Apply;
    hide Enabled;
    RunInv(states, acts, k);
    var s := states[k];
    LeaverCounted(s, x);
    LeaverCounted(s, y);
    if s.pc[x].b == s.pc[y].b {
      SoleEater(s, x, y);
    }
  }

  /** A bowl's lock is only taken by a creature that does not hold set_catmouse_eat: locks are taken in one order. */
  lemma LockOrder(states: seq<State>, acts: seq<Action>, k: nat)
    requires IsRun(states, acts) && k < |acts| && acts[k].TakeBowl?
    ensures states[k].setLock != Some(acts[k].x)
  {
    hide Apply;
    RunInv(states, acts, k);
    Owner(states[k].setLock, states[k].pc, acts[k].x, HoldsSet);
  }
}
