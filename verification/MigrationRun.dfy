/**
 * What thread_consider_migration (kern/thread/thread.c:856-958) decides and does while other CPUs work on the same run
 * queues.
 */
module MigrationRun {
  import opened Threads
  import opened ThreadProofs
  import opened Scheduler

  /** The lengths that CPU c's migration code has counted so far. */
  ghost function Lens(states: seq<State>, acts: seq<Action>, c: Cpu): seq<nat>
    requires |states| > |acts|
  {
    if acts == [] then []
    else
      var n := |acts| - 1;
      var lens := Lens(states, acts[..n], c);
      if acts[n] == MigStart(c) then []
      else if acts[n] == MigCount(c) then lens + [|L(states[n].lists, RunQueue(|lens|))|]
      else lens
  }

  function Sum(xs: seq<nat>): nat {
    if xs == [] then 0 else Sum(xs[..|xs| - 1]) + xs[|xs| - 1]
  }

  /** The counters are those of the lengths counted. */
  ghost predicate Counts(pc: Pc, c: Cpu, lens: seq<nat>) {
    pc.Migrating? && pc.phase.Counting? ==>
      pc.phase == Counting(|lens|, if c < |lens| then lens[c] else 0, Sum(lens))
  }

  lemma CountStep(s: State, a: Action, c: Cpu, lens: seq<nat>, lens': seq<nat>)
    requires Enabled(s, a) && c < |s.pc| && Counts(s.pc[c], c, lens)
    requires lens' == if a == MigStart(c) then []
                      else if a == MigCount(c) then lens + [|L(s.lists, RunQueue(|lens|))|] else lens
    ensures |Apply(s, a).pc| == |s.pc| && Counts(Apply(s, a).pc[c], c, lens')
  {
    hide L;
    hide AddTail;
    hide AddHead;
    hide Drop;
    hide Move;
    hide Share;
    if a == MigCount(c) {
      assert lens'[..|lens|] == lens;
    }
  }

  lemma {:induction false} CountingIs(states: seq<State>, acts: seq<Action>, k: nat, c: Cpu)
    requires IsRun(states, acts) && k < |states| && c < |states[0].pc|
    ensures |states[k].pc| == |states[0].pc| && Counts(states[k].pc[c], c, Lens(states, acts[..k], c))
  {
    hide Apply;
    hide Enabled;
    hide L;
    hide Counts;
    if k == 0 {
      BootCounts(states[0], c);
    } else {
      CountingIs(states, acts, k - 1, c);
      assert acts[..k][..k - 1] == acts[..k - 1];
      CountStep(states[k - 1], acts[k - 1], c, Lens(states, acts[..k - 1], c), Lens(states, acts[..k], c));
    }
  }

  lemma BootCounts(s: State, c: Cpu)
    requires Init(s) && c < |s.pc|
    ensures Counts(s.pc[c], c, [])
  {
  }

  /**
   * Whatever the other CPUs do meanwhile, migration decides by the lengths it counted: a CPU with less than its share
   * of their sum goes on as before; any other is to send what it has above its share, the sum divided by the number
   * of CPUs and rounded up.
   */
  lemma DecidesByShare(states: seq<State>, acts: seq<Action>, k: nat, c: Cpu)
    requires IsRun(states, acts) && k < |acts| && acts[k] == MigDecide(c)
    ensures var lens := Lens(states, acts[..k], c);
            && c < |states[k].pc| == |states[k + 1].pc| == |lens|
            && if lens[c] * |lens| < Sum(lens) then !states[k + 1].pc[c].Migrating?
               else && states[k + 1].pc[c].Migrating? && states[k + 1].pc[c].phase.Taking?
                    && var share := states[k + 1].pc[c].phase.share;
                       && IsShare(share, Sum(lens), |lens|) && share <= lens[c]
                       && states[k + 1].pc[c].phase == Taking(lens[c] - share, lens[c] - share, share)
  {
    hide L;
    hide Lens;
    hide Sum;
    hide Share;
    hide Counts;
    SamePcs(states, acts, k);
    CountingIs(states, acts, k, c);
    var s, lens := states[k], Lens(states, acts[..k], c);
    PhaseHolds(states, acts, k, c);
    CountsAre(s, c, lens);
    ShareIs(Sum(lens), |s.pc|, lens[c]);
  }

  lemma SamePcCount(s: State, a: Action)
    requires Enabled(s, a)
    ensures |Apply(s, a).pc| == |s.pc|
  {
    hide L;
    hide Share;
    hide Drop;
    hide Move;
  }

  lemma {:induction false} SamePcs(states: seq<State>, acts: seq<Action>, k: nat)
    requires IsRun(states, acts) && k < |states|
    ensures |states[k].pc| == |states[0].pc|
  {
    hide Apply;
    hide Enabled;
    if k > 0 {
      SamePcs(states, acts, k - 1);
      SamePcCount(states[k - 1], acts[k - 1]);
    }
  }

  lemma PhaseHolds(states: seq<State>, acts: seq<Action>, k: nat, c: Cpu)
    requires IsRun(states, acts) && k < |states| && c < |states[k].pc|
    ensures PhaseOk(states[k], c)
  {
    hide Apply;
    hide Enabled;
    hide PhaseOk;
    RunInv(states, acts, k);
  }

  lemma CountsAre(s: State, c: Cpu, lens: seq<nat>)
    requires c < |s.pc| && Counts(s.pc[c], c, lens) && Enabled(s, MigDecide(c)) && PhaseOk(s, c)
    ensures |lens| == |s.pc| && s.pc[c].phase == Counting(|lens|, lens[c], Sum(lens))
  {
  }

  /** While CPU c takes and places victims: how many are still to be considered, and that the others are its own. */
  ghost predicate Sending(s: State, c: Cpu) {
    c < |s.pc| == |s.cur| && s.pc[c].Migrating? ==>
      var v, ph := L(s.lists, Victims(c)), s.pc[c].phase;
      && (ph.Counting? ==> v == [])
      && (ph.Taking? ==> |v| + ph.n == ph.toSend)
      && (ph.Placing? ==> ph.toSend <= |v| && forall i | ph.toSend <= i < |v| :: v[i] == s.cur[c])
  }

  /** Nothing that CPU c's migration goes by was changed by the step. */
  ghost predicate Untouched(s: State, s': State, c: Cpu) {
    && |s'.pc| == |s.pc| && |s'.cur| == |s.cur| && c < |s.pc| == |s.cur|
    && s'.pc[c] == s.pc[c] && s'.cur[c] == s.cur[c] && L(s'.lists, Victims(c)) == L(s.lists, Victims(c))
  }

  lemma OthersDoNotTouch(s: State, a: Action, c: Cpu)
    requires Enabled(s, a) && c < |s.pc| == |s.cur| && s.pc[c].Migrating? && !(IsMigration(a) && a.c == c)
    ensures Untouched(s, Apply(s, a), c)
  {
    ListStep(s, a, Victims(c));
    hide L;
    hide Move;
    hide Drop;
    hide AddTail;
    hide AddHead;
    hide Share;
  }

  lemma OwnSending(s: State, a: Action, c: Cpu)
    requires Inv(s) && Sending(s, c) && Enabled(s, a) && IsMigration(a) && a.c == c
    ensures Sending(Apply(s, a), c)
  {
    hide Inv;
    hide L;
    hide Move;
    hide Drop;
    hide AddTail;
    hide AddHead;
    hide Share;
    if a.MigPlace? {
      PlaceSending(s, c);
    } else {
      ListStep(s, a, Victims(c));
      if a.MigStart? {
        NoVictims(s, c);
      }
    }
  }

  lemma PlaceSending(s: State, c: Cpu)
    requires Sending(s, c) && Enabled(s, MigPlace(c))
    ensures Sending(Apply(s, MigPlace(c)), c)
  {
    hide L;
    hide Move;
    ListStep(s, MigPlace(c), Victims(c));
    var v, s' := L(s.lists, Victims(c)), Apply(s, MigPlace(c));
    var v' := L(s'.lists, Victims(c));
    assert v' == if v[0] == s.cur[c] then v[1..] + [v[0]] else v[1..];
    forall i | s'.pc[c].phase.toSend <= i < |v'|
      ensures v'[i] == s.cur[c]
    {
      assert i + 1 < |v| ==> v'[i] == v[i + 1];
    }
  }

  lemma {:induction false} RunSending(states: seq<State>, acts: seq<Action>, k: nat, c: Cpu)
    requires IsRun(states, acts) && k < |states|
    ensures Sending(states[k], c)
  {
    hide Apply;
    hide Inv;
    hide L;
    if k > 0 {
      RunSending(states, acts, k - 1, c);
      RunInv(states, acts, k - 1);
      var s, a, s' := states[k - 1], acts[k - 1], states[k];
      NeverTwice(states, acts, k - 1, c, c);
      NeverTwice(states, acts, k, c, c);
      SamePcCount(s, a);
      if IsMigration(a) && a.c == c {
        OwnSending(s, a, c);
      } else if c < |s.pc| && s.pc[c].Migrating? {
        OthersDoNotTouch(s, a, c);
      } else if c < |s.pc| {
        NotMigrating(s, a, c);
      }
    }
  }

  lemma NotMigrating(s: State, a: Action, c: Cpu)
    requires Enabled(s, a) && c < |s.pc| == |s.cur| && !s.pc[c].Migrating? && !(IsMigration(a) && a.c == c)
    ensures c < |Apply(s, a).pc| && !Apply(s, a).pc[c].Migrating?
  {
    hide L;
    hide Move;
    hide Drop;
    hide Share;
  }

  /**
   * When migration has no more to send, every thread it took off its queue has gone to another CPU, but for the
   * current one; what it takes is what it decided to send.
   */
  lemma AllSent(states: seq<State>, acts: seq<Action>, k: nat, c: Cpu)
    requires IsRun(states, acts) && k < |states| && InPhase(states[k], c)
    ensures var v, ph := L(states[k].lists, Victims(c)), states[k].pc[c].phase;
            && (ph.Taking? && ph.n == 0 ==> |v| == ph.toSend)
            && (ph.Placing? && ph.toSend == 0 ==> forall t | t in v :: t == states[k].cur[c])
  {
    hide Apply;
    hide Enabled;
    hide L;
    RunSending(states, acts, k, c);
  }

  /** And when it gives up with some left, it has seen a full share on every other queue. */
  lemma {:induction false} OthersWereFull(states: seq<State>, acts: seq<Action>, k: nat, c: Cpu, d: Cpu)
    returns (j: nat)
    requires IsRun(states, acts) && k < |states| && InPhase(states[k], c) && states[k].pc[c].phase.Placing?
    requires d < states[k].pc[c].phase.next && d != c
    ensures j < k && |L(states[j].lists, RunQueue(d))| >= states[k].pc[c].phase.share
  {
    hide L;
    hide Apply;
    if k > 0 {
      var s, a := states[k - 1], acts[k - 1];
      NeverTwice(states, acts, k - 1, c, c);
      SamePcCount(s, a);
      BecomesPlacing(s, a, c);
      if a == MigNext(c) && s.pc[c].phase.next == d {
        j := k - 1;
      } else {
        j := OthersWereFull(states, acts, k - 1, c, d);
      }
    }
  }

  lemma BecomesPlacing(s: State, a: Action, c: Cpu)
    requires Enabled(s, a) && c < |s.pc| == |s.cur| && InPhase(Apply(s, a), c) && Apply(s, a).pc[c].phase.Placing?
    ensures var ph := Apply(s, a).pc[c].phase;
            || (a == MigTaken(c) && ph.next == 0)
            || (&& InPhase(s, c) && s.pc[c].phase.Placing? && s.pc[c].phase.share == ph.share
                && ph.next == s.pc[c].phase.next + if a == MigNext(c) then 1 else 0)
  {
    hide L;
    hide Move;
    hide Drop;
    hide AddTail;
    hide AddHead;
    hide Share;
    if IsMigration(a) && a.c == c {
      assert Apply(s, a) == ApplyMigration(s, a);
    } else {
      hide Apply;
      if s.pc[c].Migrating? {
        OthersDoNotTouch(s, a, c);
      } else {
        NotMigrating(s, a, c);
      }
    }
  }

  /** How far CPU c's migration is from its end: the phases still to come, and what is left of this one. */
  ghost function Rank(s: State, c: Cpu): (nat, nat)
    requires InPhase(s, c) && PhaseOk(s, c)
  {
    match s.pc[c].phase
    case Counting(next, _, _) => (3, |s.pc| - next)
    case Taking(n, _, _) => (2, n)
    case Placing(next, toSend, _) => (1, |s.pc| - next + toSend)
    case PuttingBack => (0, |L(s.lists, Victims(c))|)
  }

  predicate Before(a: (nat, nat), b: (nat, nat)) {
    a.0 < b.0 || (a.0 == b.0 && a.1 < b.1)
  }

  /** In every run, each step of CPU c's migration brings it closer to its end, and no other CPU's step delays it. */
  lemma MigrationEnds(states: seq<State>, acts: seq<Action>, k: nat, c: Cpu)
    requires IsRun(states, acts) && k < |acts| && InPhase(states[k], c) && InPhase(states[k + 1], c)
    ensures PhaseOk(states[k], c) && PhaseOk(states[k + 1], c)
    ensures if IsMigration(acts[k]) && acts[k].c == c then Before(Rank(states[k + 1], c), Rank(states[k], c))
            else Rank(states[k + 1], c) == Rank(states[k], c)
  {
    PhaseHolds(states, acts, k, c);
    PhaseHolds(states, acts, k + 1, c);
    SamePcCount(states[k], acts[k]);
    NeverTwice(states, acts, k, c, c);
    hide Init;
    if IsMigration(acts[k]) && acts[k].c == c {
      RankStep(states[k], acts[k], c);
    } else {
      OthersDoNotTouch(states[k], acts[k], c);
    }
  }

  lemma RankStep(s: State, a: Action, c: Cpu)
    requires Enabled(s, a) && IsMigration(a) && a.c == c && InPhase(s, c) && PhaseOk(s, c)
    requires InPhase(Apply(s, a), c) && PhaseOk(Apply(s, a), c)
    ensures Before(Rank(Apply(s, a), c), Rank(s, c))
  {
    ListStep(s, a, Victims(c));
    hide L;
    hide Move;
    hide Drop;
    hide AddTail;
    hide AddHead;
    hide Share;
    hide PhaseOk;
  }
}
