/** Everybody asleep: a run of the cats and mice of kern/synchprobs/catmouse_synch.c:107-228 that ends so. */
module CatMouseStuck {
  import opened Common
  import opened CatMouse
  import opened CatMouseWaits

  ghost predicate RunTo(states: seq<State>, acts: seq<Action>, s: State) {
    IsRun(states, acts) && states[|acts|] == s
  }

  ghost predicate Reachable(s: State) {
    exists states, acts :: RunTo(states, acts, s)
  }

  lemma Step(s: State, a: Action, s': State)
    requires Reachable(s) && Enabled(s, a) && Apply(s, a) == s'
    ensures Reachable(s')
  {
    hide Enabled;
    hide Apply;
    hide Init;
    var states, acts :| RunTo(states, acts, s);
    var states', acts' := states + [s'], acts + [a];
    forall k | 0 <= k < |acts'|
      ensures Enabled(states'[k], acts'[k]) && states'[k + 1] == Apply(states'[k], acts'[k])
    {
      assert k < |acts| ==> states'[k] == states[k] && acts'[k] == acts[k];
    }
    assert RunTo(states', acts', s');
  }

  /** Nobody has the shared lock, and x can take the lock of bowl b. */
  predicate Free(s: State, x: Creature, b: nat) {
    && x in s.pc && x in s.kind && s.setLock == None
    && b < |s.bowls| == |s.bowlLock| && (s.bowlLock[b] == None || s.bowlLock[b] == Some(x))
  }

  /** x, who was out, has come to bowl b and is about to test whether to wait. */
  function Come(s: State, x: Creature, b: nat): State
    requires Free(s, x, b)
  {
    s.(pc := s.pc[x := Testing(b)], setLock := Some(x), bowlLock := s.bowlLock[b := Some(x)],
       turn := if s.turn == None then Some(s.kind[x]) else s.turn)
  }

  lemma Comes(s: State, x: Creature, b: nat)
    requires Reachable(s) && Free(s, x, b) && s.pc[x] == Out && s.bowlLock[b] == None
    ensures Reachable(Come(s, x, b))
  {
    hide Reachable;
    var turn := if s.turn == None then Some(s.kind[x]) else s.turn;
    var s1 := s.(pc := s.pc[x := First(b)], setLock := Some(x));
    var s2 := s.(pc := s.pc[x := WantBowl(b, false)], turn := turn);
    var s3 := s2.(pc := s.pc[x := HasBowl(b, false)], bowlLock := s.bowlLock[b := Some(x)]);
    Step(s, Arrive(x, b), s1);
    assert s1.pc[x := WantBowl(b, false)] == s2.pc;
    Step(s1, ReleaseFirst(x), s2);
    assert s2.pc[x := HasBowl(b, false)] == s3.pc;
    Step(s2, TakeBowl(x), s3);
    assert s3.pc[x := Testing(b)] == Come(s, x, b).pc;
    Step(s3, TakeSet(x), Come(s, x, b));
  }

  /** x, who was testing, has been let in and has eaten. */
  function Eat(s: State, x: Creature, b: nat): State
    requires x in s.kind
  {
    s.(pc := s.pc[x := Fed(b)], setLock := None, eating := Add(s.eating, s.kind[x], 1))
  }

  lemma Eats(s: State, x: Creature, b: nat)
    requires Reachable(s) && x in s.pc && x in s.kind && s.pc[x] == Testing(b) && !MustWait(s, s.kind[x])
    requires b < |s.bowls| == |s.bowlLock| && s.bowls[b] == None
    ensures Reachable(Eat(s, x, b))
  {
    hide Reachable;
    hide MustWait;
    var k := s.kind[x];
    var s1 := s.(pc := s.pc[x := Admitted(b)], setLock := None, eating := Add(s.eating, k, 1));
    var s2 := s1.(pc := s.pc[x := Eating(b)], checked := Add(s.checked, k, 1), bowls := s.bowls[b := Some(k)]);
    Step(s, Admit(x), s1);
    assert s1.pc[x := Eating(b)] == s2.pc;
    Step(s1, EatStart(x), s2);
    assert s2.pc[x := Fed(b)] == Eat(s, x, b).pc && s2.bowls[b := None] == s.bowls;
    Step(s2, EatEnd(x), Eat(s, x, b));
  }

  /** x, who was out, has come to bowl b, must wait, and has decided to sleep. */
  lemma Nods(s: State, x: Creature, b: nat, s': State)
    requires Reachable(s) && Free(s, x, b) && s.pc[x] == Out && s.bowlLock[b] == None
    requires s.turn == Some(Other(s.kind[x]))
    requires s' == s.(pc := s.pc[x := Dozing(b)], bowlLock := s.bowlLock[b := Some(x)],
                      sleeping := Add(s.sleeping, s.kind[x], 1))
    ensures Reachable(s')
  {
    hide Reachable;
    Comes(s, x, b);
    var s1 := Come(s, x, b);
    assert s1.pc[x := Dozing(b)] == s'.pc;
    Step(s1, Doze(x), s');
  }

  // Creature 0 is a cat and goes to bowl 1; creature 1 is a mouse and goes to bowl 0.

  function Start(): State {
    State(map[0 := Cat, 1 := Mouse], map[0 := Out, 1 := Out], None, [None, None], Counts(0, 0), Counts(0, 0), None,
          Counts(0, 0), [None, None])
  }

  predicate Fits(s: State, cat: Pc, mouse: Pc) {
    && s.kind == map[0 := Cat, 1 := Mouse] && s.pc == map[0 := cat, 1 := mouse] && s.setLock == None
    && |s.bowls| == |s.bowlLock| == 2 && s.bowls[0] == None
  }

  /** The mouse comes first, and eats. */
  lemma MouseEats() returns (s: State)
    ensures Reachable(s) && Fits(s, Out, Fed(0)) && s.turn == Some(Mouse) && s.eating == Counts(0, 1)
    ensures s.sleeping == Counts(0, 0) && s.bowlLock == [Some(1), None]
  {
    hide Reachable;
    StartReached();
    Comes(Start(), 1, 0);
    var s1 := Come(Start(), 1, 0);
    Eats(s1, 1, 0);
    s := Eat(s1, 1, 0);
    assert s.pc == map[0 := Out, 1 := Fed(0)];
  }

  lemma StartReached()
    ensures Reachable(Start())
  {
    assert RunTo([Start()], [], Start());
  }

  /** The cat comes while it is the turn of the mice, and counts itself as sleeping. */
  lemma CatNods() returns (s: State)
    ensures Reachable(s) && Fits(s, Dozing(1), Fed(0)) && s.turn == Some(Mouse) && s.eating == Counts(0, 1)
    ensures s.sleeping == Counts(1, 0) && s.bowlLock == [Some(1), Some(0)]
  {
    hide Reachable;
    var s0 := MouseEats();
    s := s0.(pc := s0.pc[0 := Dozing(1)], bowlLock := s0.bowlLock[1 := Some(0)], sleeping := Counts(1, 0));
    Nods(s0, 0, 1, s);
  }

  /** Before it is asleep the mouse leaves: it is the turn of the cats now, but the broadcast misses this one. */
  lemma MouseLeaves() returns (s: State)
    ensures Reachable(s) && Fits(s, Dozing(1), Left(0)) && s.turn == Some(Cat) && s.eating == Counts(0, 0)
    ensures s.sleeping == Counts(1, 0) && s.bowlLock == [Some(1), Some(0)]
  {
    hide Reachable;
    var s0 := CatNods();
    var s1 := s0.(pc := s0.pc[1 := Leaving(0)], setLock := Some(1));
    Step(s0, TakeSetAgain(1), s1);
    s := s1.(pc := s1.pc[1 := Left(0)], setLock := None, eating := Counts(0, 0), turn := Some(Cat));
    assert Wake(s, Cat) == s.pc;
    Step(s1, Leave(1), s);
    assert s.pc == map[0 := Dozing(1), 1 := Left(0)];
  }

  /** The cat goes to sleep in its own turn, and the mouse goes out. */
  lemma CatSleeps() returns (s: State)
    ensures Reachable(s) && Fits(s, Asleep(1), Out) && s.turn == Some(Cat) && s.bowlLock == [None, None]
  {
    hide Reachable;
    var s0 := MouseLeaves();
    var s1 := s0.(pc := s0.pc[0 := Asleep(1)], bowlLock := s0.bowlLock[1 := None]);
    Step(s0, Sleep(0), s1);
    s := s1.(pc := s1.pc[1 := Out], bowlLock := s1.bowlLock[0 := None]);
    Step(s1, Done(1), s);
    assert s.pc == map[0 := Asleep(1), 1 := Out];
  }

  /** The mouse comes back, is not let in, and goes to sleep too. */
  lemma MouseSleeps() returns (s: State)
    ensures Reachable(s) && Fits(s, Asleep(1), Asleep(0))
  {
    hide Reachable;
    var s0 := CatSleeps();
    var s1 := s0.(pc := s0.pc[1 := Dozing(0)], bowlLock := s0.bowlLock[0 := Some(1)],
                  sleeping := Add(s0.sleeping, Mouse, 1));
    Nods(s0, 1, 0, s1);
    s := s1.(pc := s1.pc[1 := Asleep(0)], bowlLock := s1.bowlLock[0 := None]);
    Step(s1, Sleep(1), s);
    assert s.pc == map[0 := Asleep(1), 1 := Asleep(0)];
  }

  /** One cat, one mouse and two bowls are enough for a run that ends with everybody asleep and nothing left to do. */
  lemma EverybodySleeps() returns (states: seq<State>, acts: seq<Action>)
    ensures IsRun(states, acts) && states[|acts|].pc.Keys == {0, 1} && |states[|acts|].bowls| == 2
    ensures AllAsleep(states[|acts|]) && Stuck(states[|acts|])
  {
    var end := MouseSleeps();
    states, acts :| RunTo(states, acts, end);
    hide IsRun;
    StuckIsAllAsleep(states, acts, |acts|);
  }
}
