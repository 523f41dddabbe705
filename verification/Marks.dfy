/**
 The killed marks in the supervisor machine. A mark changes the path from a child's exit to the end of the
 frame: which guard is taken, whether the routines are cancelled. It never changes where the path ends.

 Two states are alike when they agree on everything but the marks, the routines cancelled, and how far the
 examination of an exit has come. Whatever one of two such states can do, the other can do too.
 */
module Marks {
  import opened Wrappers
  import opened Supervisor
  import opened SupervisorResults
  import opened Staging

  /** A chain with the progress of an examination left out. */
  function Outline(c: Chain): Chain {
    if Examining(c.phase) then c.(phase := ReadingKilled) else c
  }

  ghost predicate Alike(s: Sup, t: Sup) {
    && t == s.(killed := t.killed, cancelled := t.cancelled, chains := t.chains)
    && |s.chains| == |t.chains|
    && forall i | 0 <= i < |s.chains| :: Outline(s.chains[i]) == Outline(t.chains[i])
  }

  /** A step of the examination of an exit. */
  predicate Examines(step: Step) {
    || step.ReadKilled? || step.ReadShutdown? || step.ReadShutdownAgain? || step.ReadKilledAgain?
    || step.Clear? || step.CancelOwn? || step.ReadShutdownLast?
  }

  lemma ExaminesExamining(phase: Phase, step: Step)
    requires Leaves(phase, step)
    ensures Examines(step) <==> Examining(phase)
  {
  }

  lemma ExaminesMoves(s: Sup, step: Step)
    ensures Examines(step) ==> Mover(s, step) == Some(step.i) && Tokens(step) == 0
  {
  }

  /** A step of an examination changes the marks, the routines cancelled and its own chain, and nothing else. */
  lemma ExaminingChanges(s: Sup, step: Step)
    requires Enabled(s, step) && Examines(step) && s.wg >= 0
    ensures Mover(s, step) == Some(step.i) && step.i < |s.chains| && Leaves(s.chains[step.i].phase, step)
    ensures var t := Next(s, step);
      t == s.(killed := t.killed, cancelled := t.cancelled, chains := s.chains[step.i := MovedIn(s, step.i, step)])
  {
    ExaminesMoves(s, step);
    MoverLeaves(s, step);
    hide Mover, Enabled, Leaves, Tokens, Moved, KilledNames, Cancelled;
  }

  /** Where a phase of an examination leads: on with it, or to the end that the flag decides. */
  lemma MovedExamines(shutdown: bool, killed: bool, c: Chain, step: Step)
    requires Leaves(c.phase, step) && Examines(step) && (Leaving(c.phase) ==> shutdown)
    ensures var d := Moved(shutdown, killed, c, step);
      && d == c.(phase := d.phase) && (Leaving(d.phase) ==> shutdown)
      && (Examining(d.phase) ==> Weight(d.phase) < Weight(c.phase))
      && (!Examining(d.phase) ==> d.phase == if shutdown then Ending else Adding)
  {
  }

  /**
   The decision whether to restart. Whatever the marks are and whenever they are set, an examination ends
   in a restart if and only if the flag is unset at its last step.
   */
  lemma FlagDecides(s: Sup, step: Step, i: nat)
    requires Reachable(s) && Enabled(s, step) && Mover(s, step) == Some(i) && i < |s.chains|
    requires Examining(s.chains[i].phase)
    ensures |Next(s, step).chains| == |s.chains|
    ensures !Examining(Next(s, step).chains[i].phase) ==>
      Next(s, step).chains[i].phase == if s.shutdown then Ending else Adding
  {
    hide Next, Enabled, Mover, Moved, Leaves;
    ReachableInv(s);
    OthersStay(s, step, i);
    ExaminesExamining(s.chains[i].phase, step);
    MovedExamines(s.shutdown, s.chains[i].name in s.killed, s.chains[i], step);
  }

  /**
   What the marks do decide: a chain whose examination is over has cancelled the routines of its last process,
   except when the second guard reads the flag and no mark.
   */
  lemma UncancelledEnd(s: Sup, step: Step, i: nat)
    requires Reachable(s) && Enabled(s, step) && Mover(s, step) == Some(i) && i < |s.chains|
    requires Examining(s.chains[i].phase)
    ensures |Next(s, step).chains| == |s.chains|
    ensures !Examining(Next(s, step).chains[i].phase) ==>
      OwnPid(s.chains[i]) <= Next(s, step).cancelled ||
      (step == ReadKilledAgain(i) && s.shutdown && s.chains[i].name !in s.killed)
  {
    hide Inv, Next, Enabled, Mover, Moved, Leaves, Examining, OwnPid;
    ReachableInv(s);
    OthersStay(s, step, i);
    CancelledAfter(s, step);
    ExaminesExamining(s.chains[i].phase, step);
    ExaminesMoves(s, step);
    LastIsCancelled(s, i);
    FlagIsSet(s, i);
    if !Examining(Next(s, step).chains[i].phase) {
      UncancelledByGuard(s.shutdown, s.chains[i].name in s.killed, s.chains[i], step);
    }
  }

  lemma LastIsCancelled(s: Sup, i: nat)
    requires Inv(s) && i < |s.chains|
    ensures s.chains[i].phase.ReadingShutdownLast? ==> OwnPid(s.chains[i]) <= s.cancelled
  {
  }

  lemma FlagIsSet(s: Sup, i: nat)
    requires Inv(s) && i < |s.chains|
    ensures s.chains[i].phase.ReadingKilledAgain? ==> s.shutdown
  {
  }

  /** The steps that end an examination. */
  lemma UncancelledByGuard(shutdown: bool, killed: bool, c: Chain, step: Step)
    requires Leaves(c.phase, step) && Examining(c.phase) && !Examining(Moved(shutdown, killed, c, step).phase)
    ensures
      || step.CancelOwn?
      || (step.ReadShutdownLast? && c.phase.ReadingShutdownLast?)
      || (step.ReadKilledAgain? && c.phase.ReadingKilledAgain? && !killed)
  {
  }

  // ---------- What the marks say ----------

  predicate MarksName(s: Sup, step: Step, name: string) {
    step.Mark? && step.i < |s.chains| && s.chains[step.i].name == name
  }

  predicate ClearsName(s: Sup, step: Step, name: string) {
    step.Clear? && step.i < |s.chains| && s.chains[step.i].name == name
  }

  ghost predicate NeverCleared(s: Sup, steps: seq<Step>, name: string) {
    forall k | 0 <= k < |steps| :: !ClearsName(s, steps[k], name)
  }

  /** Some step marks the name, and no later one clears it. */
  ghost predicate LeftMarked(s: Sup, steps: seq<Step>, name: string) {
    exists k :: 0 <= k < |steps| && MarksName(s, steps[k], name) && NeverCleared(s, steps[k + 1..], name)
  }

  lemma MarksNext(s: Sup, step: Step, name: string)
    requires Enabled(s, step)
    ensures name in Next(s, step).killed <==>
      MarksName(s, step, name) || (name in s.killed && !ClearsName(s, step, name))
  {
    assert Next(s, step).killed == KilledNames(s, step);
    hide Next;
  }

  lemma SameMarks(s: Sup, step: Step, other: Step, name: string)
    requires Enabled(s, step)
    ensures MarksName(Next(s, step), other, name) <==> MarksName(s, other, name)
    ensures ClearsName(Next(s, step), other, name) <==> ClearsName(s, other, name)
  {
    SameLength(s, step);
    if (other.Mark? || other.Clear?) && other.i < |s.chains| {
      NamesStay(s, step, other.i);
    }
    hide Next, Enabled;
  }

  lemma NeverClearedNext(s: Sup, step: Step, steps: seq<Step>, name: string)
    requires Enabled(s, step)
    ensures NeverCleared(Next(s, step), steps, name) <==> NeverCleared(s, steps, name)
  {
    hide Next, Enabled, ClearsName;
    forall k | 0 <= k < |steps| ensures ClearsName(Next(s, step), steps[k], name) <==> ClearsName(s, steps[k], name) {
      SameMarks(s, step, steps[k], name);
    }
  }

  lemma LeftMarkedNext(s: Sup, steps: seq<Step>, name: string)
    requires steps != [] && Enabled(s, steps[0])
    ensures LeftMarked(s, steps, name) <==>
      || (MarksName(s, steps[0], name) && NeverCleared(s, steps[1..], name))
      || LeftMarked(Next(s, steps[0]), steps[1..], name)
  {
    hide Next, Enabled, MarksName, ClearsName, NeverCleared;
    var t, rest := Next(s, steps[0]), steps[1..];
    forall k | 0 <= k < |rest|
      ensures MarksName(t, rest[k], name) <==> MarksName(s, steps[k + 1], name)
      ensures NeverCleared(t, rest[k + 1..], name) <==> NeverCleared(s, steps[k + 2..], name)
    {
      SameMarks(s, steps[0], rest[k], name);
      assert rest[k + 1..] == steps[k + 2..];
      NeverClearedNext(s, steps[0], rest[k + 1..], name);
    }
    if LeftMarked(s, steps, name) {
      var k :| 0 <= k < |steps| && MarksName(s, steps[k], name) && NeverCleared(s, steps[k + 1..], name);
      assert k > 0 ==> MarksName(t, rest[k - 1], name) && NeverCleared(t, rest[k - 1 + 1..], name);
    }
    if LeftMarked(t, rest, name) {
      var k :| 0 <= k < |rest| && MarksName(t, rest[k], name) && NeverCleared(t, rest[k + 1..], name);
      assert MarksName(s, steps[k + 1], name) && NeverCleared(s, steps[k + 1 + 1..], name);
    }
  }

  lemma {:induction false} MarkedSince(s: Sup, steps: seq<Step>, name: string)
    requires Valid(s, steps)
    ensures name in Exec(s, steps).killed <==>
      LeftMarked(s, steps, name) || (name in s.killed && NeverCleared(s, steps, name))
    decreases |steps|
  {
    if steps != [] {
      hide Next, Enabled, LeftMarked, MarksName, ClearsName;
      MarksNext(s, steps[0], name);
      MarkedSince(Next(s, steps[0]), steps[1..], name);
      LeftMarkedNext(s, steps, name);
      NeverClearedNext(s, steps[0], steps[1..], name);
      assert NeverCleared(s, steps, name) <==> !ClearsName(s, steps[0], name) && NeverCleared(s, steps[1..], name) by {
        assert forall k | 0 < k < |steps| :: steps[k] == steps[1..][k - 1];
      }
      hide NeverCleared;
    }
  }

  /** A name is marked if and only if a routine of a command of that name marked it and none has cleared it since. */
  lemma MarkedExactly(init: Sup, steps: seq<Step>, name: string)
    requires Init(init) && Valid(init, steps)
    ensures name in Exec(init, steps).killed <==> LeftMarked(init, steps, name)
  {
    MarkedSince(init, steps, name);
  }

  // ---------- Any examination can be finished ----------

  function ExaminationStep(phase: Phase, i: nat): Step
    requires Examining(phase)
  {
    match phase
    case ReadingKilled => ReadKilled(i)
    case ReadingShutdown => ReadShutdown(i)
    case ReadingShutdownAgain => ReadShutdownAgain(i)
    case ReadingKilledAgain => ReadKilledAgain(i)
    case Clearing => Clear(i)
    case Cancelling(_) => CancelOwn(i)
    case ReadingShutdownLast => ReadShutdownLast(i)
  }

  lemma ExaminationEnabled(s: Sup, i: nat)
    requires !s.exited && i < |s.chains| && Examining(s.chains[i].phase)
    ensures var step := ExaminationStep(s.chains[i].phase, i);
      Enabled(s, step) && Examines(step) && Mover(s, step) == Some(i) && step.i == i
  {
  }

  /** Whatever the marks, the chain's own steps take an examination to the end that the flag decides. */
  lemma {:induction false} Finish(s: Sup, i: nat) returns (steps: seq<Step>)
    requires !s.exited && s.wg >= 0 && i < |s.chains| && Examining(s.chains[i].phase)
    requires Leaving(s.chains[i].phase) ==> s.shutdown
    ensures Valid(s, steps)
    ensures var t := Exec(s, steps);
      var c := s.chains[i].(phase := if s.shutdown then Ending else Adding);
      t == s.(killed := t.killed, cancelled := t.cancelled, chains := s.chains[i := c])
    decreases Weight(s.chains[i].phase)
  {
    hide Next, Enabled, Moved, Leaves, Leaving, Weight, Mover, Examines, Examining;
    var c := s.chains[i];
    var end := c.(phase := if s.shutdown then Ending else Adding);
    var step := ExaminationStep(c.phase, i);
    ExaminationEnabled(s, i);
    ExaminingChanges(s, step);
    MovedExamines(s.shutdown, c.name in s.killed, c, step);
    var t := Next(s, step);
    var d := MovedIn(s, i, step);
    if Examining(d.phase) {
      UpdatedTwice(s.chains, i, d, end);
      var rest := Finish(t, i);
      steps := [step] + rest;
      assert steps[1..] == rest;
    } else {
      steps := [step];
      assert steps[1..] == [] && Valid(t, []) && Exec(t, []) == t;
    }
  }

  // ---------- Alike states stay alike ----------

  lemma AlikeChain(c: Chain, d: Chain)
    requires Outline(c) == Outline(d)
    ensures Examining(c.phase) <==> Examining(d.phase)
    ensures !Examining(c.phase) ==> c == d
    ensures d == c.(phase := d.phase)
  {
  }

  /** Two chains in the same examination, wherever they stand in it. */
  lemma SameOutline(c: Chain, d: Chain)
    requires d == c.(phase := d.phase) && Examining(c.phase) && Examining(d.phase)
    ensures Outline(d) == Outline(c)
  {
  }

  lemma AlikeUpdate(s: Sup, t: Sup, i: nat, c: Chain)
    requires i < |s.chains| && Outline(c) == Outline(s.chains[i])
    requires t == s.(killed := t.killed, cancelled := t.cancelled, chains := s.chains[i := c])
    ensures Alike(s, t)
  {
    hide Outline;
  }

  lemma AlikeBoth(s: Sup, t: Sup, s2: Sup, t2: Sup, i: nat, c: Chain, d: Chain)
    requires Alike(s, t) && i < |s.chains| && Outline(c) == Outline(d)
    requires s2 == s.(killed := s2.killed, cancelled := s2.cancelled, chains := s.chains[i := c])
    requires t2 == t.(killed := t2.killed, cancelled := t2.cancelled, chains := t.chains[i := d])
    ensures Alike(s2, t2)
  {
    hide Outline;
  }

  lemma AlikeTrans(s: Sup, t: Sup, u: Sup)
    requires Alike(s, t) && Alike(s, u)
    ensures Alike(u, t)
  {
    hide Outline;
    forall i | 0 <= i < |u.chains| ensures Outline(u.chains[i]) == Outline(t.chains[i]) {
      assert Outline(s.chains[i]) == Outline(t.chains[i]) && Outline(s.chains[i]) == Outline(u.chains[i]);
    }
  }

  /** A step outside the examinations does not look at the marks. */
  lemma MovedUnmarked(shutdown: bool, a: bool, b: bool, c: Chain, step: Step)
    requires Leaves(c.phase, step) && !Examines(step)
    ensures Moved(shutdown, a, c, step) == Moved(shutdown, b, c, step)
  {
  }

  /** The step finds in the one state all it needs of the other. */
  lemma AlikeEnabled(s: Sup, t: Sup, step: Step)
    requires Alike(s, t) && Enabled(s, step) && !Examines(step)
    ensures Enabled(t, step) && Mover(t, step) == Mover(s, step)
    ensures Mover(s, step).Some? ==>
      var i := Mover(s, step).value;
      i < |s.chains| && t.chains[i] == s.chains[i] && Leaves(s.chains[i].phase, step)
  {
    if Mover(s, step).Some? {
      MoverLeaves(s, step);
      ExaminesExamining(s.chains[Mover(s, step).value].phase, step);
      AlikeChain(s.chains[Mover(s, step).value], t.chains[Mover(s, step).value]);
    } else if (step.AcquireRetry? || step.StartFailed? || step.Kill? || step.Mark?) && step.i < |s.chains| {
      AlikeChain(s.chains[step.i], t.chains[step.i]);
    }
    hide Outline, Examining;
  }

  /** The parts of the state that are alike are changed in the same way. */
  lemma AlikeShared(s: Sup, t: Sup, step: Step)
    requires Alike(s, t) && Enabled(s, step) && Enabled(t, step) && !Examines(step)
    requires Mover(t, step) == Mover(s, step)
    requires Mover(s, step).Some? ==>
      Mover(s, step).value < |s.chains| && t.chains[Mover(s, step).value] == s.chains[Mover(s, step).value]
    ensures var s2, t2 := Next(s, step), Next(t, step);
      t2 == s2.(killed := t2.killed, cancelled := t2.cancelled, chains := t2.chains)
  {
    hide Guard, Leaves, Chains, Outline;
  }

  lemma AlikeStep(s: Sup, t: Sup, step: Step)
    requires Alike(s, t) && Enabled(s, step) && !Examines(step)
    ensures Enabled(t, step) && Alike(Next(s, step), Next(t, step))
  {
    AlikeEnabled(s, t, step);
    AlikeShared(s, t, step);
    SameLength(s, step);
    SameLength(t, step);
    hide Next, Enabled, Mover, Moved, Leaves, Outline, Examines;
    forall i | 0 <= i < |s.chains| ensures Outline(Next(s, step).chains[i]) == Outline(Next(t, step).chains[i]) {
      OthersStay(s, step, i);
      OthersStay(t, step, i);
      if Mover(s, step) == Some(i) {
        MovedUnmarked(s.shutdown, s.chains[i].name in s.killed, t.chains[i].name in t.killed, s.chains[i], step);
      }
    }
  }

  /** One step of one state, and what the other does about it. */
  lemma MatchStep(s: Sup, t: Sup, step: Step) returns (others: seq<Step>)
    requires Inv(s) && Inv(t) && Alike(s, t) && Enabled(s, step)
    ensures Valid(t, others) && Alike(Next(s, step), Exec(t, others))
  {
    assert s.wg >= 0 && !s.exited && NotDropped(s) && NotDropped(t);
    hide Inv, Counted;
    if Examines(step) {
      others := MatchExamination(s, t, step);
    } else {
      AlikeStep(s, t, step);
      others := [step];
      hide Next, Enabled, Alike;
      assert others[1..] == [] && Valid(Next(t, step), []) && Exec(Next(t, step), []) == Next(t, step);
    }
  }

  lemma MatchExamination(s: Sup, t: Sup, step: Step) returns (others: seq<Step>)
    requires Alike(s, t) && Enabled(s, step) && Examines(step) && s.wg >= 0 && !s.exited
    requires NotDropped(s) && NotDropped(t)
    ensures Valid(t, others) && Alike(Next(s, step), Exec(t, others))
  {
    ExaminingChanges(s, step);
    hide Next, Enabled, Mover, Moved, Leaves, Outline, Examines, Leaving, Weight;
    var i := step.i;
    var c, d := s.chains[i], MovedIn(s, i, step);
    MovedExamines(s.shutdown, c.name in s.killed, c, step);
    ExaminesExamining(c.phase, step);
    AlikeChain(c, t.chains[i]);
    if Examining(d.phase) {
      others := [];
      SameOutline(c, d);
      AlikeUpdate(s, Next(s, step), i, d);
      AlikeTrans(s, t, Next(s, step));
      assert Valid(t, []) && Exec(t, []) == t;
    } else {
      others := Finish(t, i);
      AlikeBoth(s, t, Next(s, step), Exec(t, others), i, d, t.chains[i].(phase := d.phase));
    }
  }

  /**
   Marks never matter, over whole runs: from two states alike but for their marks, whatever the one can come
   to, in any number of steps and with any further marks, the other can come to as well, in a state alike.
   So no mark, whenever it is set or cleared, adds or takes away a restart, an end or a start of any command.
   */
  lemma {:induction false} MarksNeverMatter(s: Sup, t: Sup, steps: seq<Step>) returns (others: seq<Step>)
    requires Inv(s) && Inv(t) && Alike(s, t) && Valid(s, steps)
    ensures Valid(t, others) && Alike(Exec(s, steps), Exec(t, others))
    decreases |steps|
  {
    hide Inv, Alike, Next, Enabled;
    if steps == [] {
      others := [];
      assert Valid(t, []) && Exec(t, []) == t;
    } else {
      var first := MatchStep(s, t, steps[0]);
      InvStep(s, steps[0]);
      InvRun(t, first);
      var rest := MarksNeverMatter(Next(s, steps[0]), Exec(t, first), steps[1..]);
      ExecConcat(t, first, rest);
      others := first + rest;
    }
  }
}
