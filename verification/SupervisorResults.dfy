/** What holds of the supervisor over every run, from the invariant of its step machine. */
module SupervisorResults {
  import opened Wrappers
  import opened Supervisor

  /** Some run from `s` ends in `t`. */
  ghost predicate Reaches(s: Sup, t: Sup) {
    exists steps: seq<Step> :: Valid(s, steps) && Exec(s, steps) == t
  }

  /** Some run from some initial state ends in `s`. */
  ghost predicate Reachable(s: Sup) {
    exists init: Sup :: Init(init) && Reaches(init, s)
  }

  lemma ReachableInv(s: Sup)
    requires Reachable(s)
    ensures Inv(s)
  {
    var init: Sup :| Init(init) && Reaches(init, s);
    var steps :| Valid(init, steps) && Exec(init, steps) == s;
    InitInv(init);
    hide Inv, Init;
    InvRun(init, steps);
  }

  // ---------- The WaitGroup ----------

  ghost predicate Unwound(s: Sup) {
    forall i | 0 <= i < |s.chains| :: s.chains[i].depth == 0
  }

  ghost predicate AllEnded(s: Sup) {
    forall i | 0 <= i < |s.chains| :: s.chains[i].phase.Ended?
  }

  /** Every child ever started has been waited for. */
  ghost predicate NoChildren(s: Sup) {
    forall pid :: pid !in s.table
  }

  /**
   Conservation: at every moment the counter is main's token, less the scheduler's, plus one for every
   frame still on some chain's stack. It goes below zero exactly when the scheduler has finished before
   main's `Add` and every frame has unwound by then, which takes a shutdown unless there are no commands.
   */
  lemma WaitGroupConservation(s: Sup)
    requires Reachable(s)
    ensures s.wg == Token(s.mainAdded) - Token(s.schedulerDone) + Sum(Depth, s.chains)
    ensures s.wg < 0 <==> s.schedulerDone && !s.mainAdded && Unwound(s)
    ensures s.wg < 0 ==> s.chains == [] || s.shutdown
    ensures s.mainAdded ==> (s.wg == 0 <==> s.schedulerDone && AllEnded(s))
  {
    ReachableInv(s);
    SumZero(Depth, s.chains);
    if s.chains != [] {
      assert s.chains[0].depth == 0 <==> s.chains[0].phase.NotScheduled? || s.chains[0].phase.Ended?;
    }
    hide Sum, Children, Recorded, Routines, PastCancelled, LeasesInPlace, CancelExplained;
  }

  lemma ZeroStep(s: Sup, step: Step)
    requires Inv(s) && s.mainAdded && s.wg == 0 && Enabled(s, step)
    ensures Next(s, step).mainAdded && Next(s, step).wg == 0
  {
    InvStep(s, step);
    var t := Next(s, step);
    SumZero(Depth, s.chains);
    SameLength(s, step);
    assert s.schedulerDone && AllEnded(s) && t.mainAdded && t.schedulerDone;
    forall i | 0 <= i < |t.chains| ensures Depth(t.chains[i]) == 0 {
      OthersStay(s, step, i);
      if Mover(s, step) == Some(i) {
        EndedIsLeftByNone(s.chains[i].phase, step);
      }
    }
    SumZero(Depth, t.chains);
    hide Sum, Next, Enabled, Scheduling, Children, Recorded, Routines, PastCancelled, NotDropped, LeasesInPlace;
  }

  lemma EndedIsLeftByNone(phase: Phase, step: Step)
    ensures phase.Ended? ==> !Leaves(phase, step)
  {
  }

  lemma {:induction false} ZeroRun(s: Sup, steps: seq<Step>)
    requires Inv(s) && s.mainAdded && s.wg == 0 && Valid(s, steps)
    ensures Exec(s, steps).mainAdded && Exec(s, steps).wg == 0
    decreases |steps|
  {
    if steps != [] {
      ZeroStep(s, steps[0]);
      InvStep(s, steps[0]);
      hide Inv, Next, Enabled;
      ZeroRun(Next(s, steps[0]), steps[1..]);
    }
  }

  /**
   Zero is final and means done: once the counter main waits on is zero, every command has ended, no
   child is left unwaited for, and it is so in every later state.
   */
  lemma ZeroIsFinal(s: Sup, steps: seq<Step>)
    requires Inv(s) && s.mainAdded && s.wg == 0 && Valid(s, steps)
    ensures Exec(s, steps).wg == 0 && AllEnded(Exec(s, steps)) && NoChildren(Exec(s, steps))
  {
    ZeroRun(s, steps);
    InvRun(s, steps);
    var t := Exec(s, steps);
    SumZero(Depth, t.chains);
    EndedHasNoChildren(t);
  }

  lemma EndedHasNoChildren(s: Sup)
    requires Children(s)
    ensures AllEnded(s) ==> NoChildren(s)
  {
    forall pid | pid in s.table ensures !AllEnded(s) {
      assert HasChild(s.chains[s.table[pid].owner].phase);
    }
  }

  /** Main returns only when every command has ended, which takes a shutdown unless there were none. */
  lemma MainReturnsWhenDone(s: Sup)
    requires Reachable(s) && Enabled(s, MainReturns)
    ensures AllEnded(s) && NoChildren(s)
    ensures s.shutdown || s.chains == []
  {
    ReachableInv(s);
    ZeroIsFinal(s, []);
    hide Enabled;
  }

  // ---------- Restarts ----------

  /**
   A restart opens a frame inside the frame that restarts. Until its chain unwinds, every frame a command has
   opened is on its stack, so it holds one token for each process it has started, and one more while the top
   frame is on its way to start another.
   */
  lemma OneFramePerStart(s: Sup, i: nat)
    requires Reachable(s) && i < |s.chains|
    ensures |s.chains[i].starts| + (if BeforeStart(s.chains[i].phase) then 1 else 0) == s.chains[i].frames
    ensures !s.chains[i].phase.Ending? && !s.chains[i].phase.Ended? ==> s.chains[i].depth == s.chains[i].frames
  {
    ReachableInv(s);
    assert Stacked(s);
    hide Inv;
    assert StackedChain(s.chains[i]);
  }

  /** No command is dropped: a chain stops restarting only under a shutdown, whatever was marked killed and when. */
  lemma NoCommandDropped(s: Sup, i: nat)
    requires Reachable(s) && i < |s.chains| && (s.chains[i].phase.Ending? || s.chains[i].phase.Ended?)
    ensures s.shutdown
  {
    ReachableInv(s);
  }

  /** How many more processes a chain can start once the shutdown flag is set. */
  function StartsLeft(phase: Phase): nat {
    if phase.NotScheduled? || phase.Adding? || BeforeStart(phase) then 1 else 0
  }

  lemma MovedStartsLeft(killed: bool, c: Chain, step: Step)
    requires Leaves(c.phase, step)
    ensures var d := Moved(true, killed, c, step);
      |d.starts| + StartsLeft(d.phase) <= |c.starts| + StartsLeft(c.phase) && c.starts <= d.starts
  {
  }

  lemma StartsStep(s: Sup, step: Step, i: nat)
    requires s.shutdown && Enabled(s, step) && i < |s.chains|
    ensures Next(s, step).shutdown && |Next(s, step).chains| == |s.chains|
    ensures |Next(s, step).chains[i].starts| + StartsLeft(Next(s, step).chains[i].phase)
            <= |s.chains[i].starts| + StartsLeft(s.chains[i].phase)
    ensures s.chains[i].starts <= Next(s, step).chains[i].starts
  {
    OthersStay(s, step, i);
    FlagsAfter(s, step);
    hide Next, Enabled, Mover, Moved, Leaves, StartsLeft;
    if Mover(s, step) == Some(i) {
      MovedStartsLeft(s.chains[i].name in s.killed, s.chains[i], step);
    }
  }

  lemma {:induction false} StartsRun(s: Sup, steps: seq<Step>, i: nat)
    requires Inv(s) && s.shutdown && Valid(s, steps) && i < |s.chains|
    ensures |Exec(s, steps).chains| == |s.chains|
    ensures |Exec(s, steps).chains[i].starts| + StartsLeft(Exec(s, steps).chains[i].phase)
            <= |s.chains[i].starts| + StartsLeft(s.chains[i].phase)
    ensures s.chains[i].starts <= Exec(s, steps).chains[i].starts
    decreases |steps|
  {
    if steps != [] {
      StartsStep(s, steps[0], i);
      InvStep(s, steps[0]);
      hide Inv, Next, Enabled;
      StartsRun(Next(s, steps[0]), steps[1..], i);
    }
  }

  /**
   Shutdown safety, under every interleaving: after the flag is set a chain starts at most one more
   process, and none at all once it has got past its next start: while its child runs, while the exit of
   that child is being examined, and for good afterwards.
   */
  lemma ShutdownStartsAtMostOne(s: Sup, steps: seq<Step>, i: nat)
    requires Reachable(s) && s.shutdown && Valid(s, steps) && i < |s.chains|
    ensures |Exec(s, steps).chains| == |s.chains|
    ensures |s.chains[i].starts| <= |Exec(s, steps).chains[i].starts| <= |s.chains[i].starts| + 1
    ensures HasChild(s.chains[i].phase) || StartsLeft(s.chains[i].phase) == 0 ==>
      Exec(s, steps).chains[i].starts == s.chains[i].starts
  {
    ReachableInv(s);
    StartsRun(s, steps, i);
  }

  // ---------- Termination ----------

  /** How far a chain is from its end when no restart can happen any more. */
  function Weight(phase: Phase): nat {
    match phase
    case NotScheduled => 19
    case Adding => 19
    case Preparing => 17
    case Acquiring => 16
    case Starting => 15
    case Registering(_) => 13
    case Arming(_) => 12
    case Running(_) => 11
    case ReadingKilled => 10
    case ReadingShutdown => 9
    case ReadingShutdownAgain => 8
    case ReadingKilledAgain => 7
    case Clearing => 6
    case Cancelling(ending) => if ending then 3 else 5
    case ReadingShutdownLast => 4
    case Ending => 2
    case Ended => 0
  }

  function Remaining(c: Chain): nat {
    Weight(c.phase) + c.depth
  }

  function Alive(s: Sup): set<Pid> {
    set pid | pid in s.table && s.table[pid].alive
  }

  /** What is left of the chains, of main's and the scheduler's tokens, of the processes, and of the wrapper. */
  function Measure(s: Sup): nat {
    Sum(Remaining, s.chains) + TokensLeft(s) + |Alive(s)|
  }

  function TokensLeft(s: Sup): nat {
    (if s.mainAdded then 0 else 1) + (if s.schedulerDone then 0 else 1) + (if s.exited then 0 else 1)
  }

  /**
   A step that takes the shutdown further: one of a chain, of the scheduler or of main, the death of a process,
   or a failed start. Not one: a retry, a mark or a kill by a routine, the signal handler's and the pod's steps.
   */
  predicate Move(step: Step) {
    match step
    case AcquireRetry(_) => false
    case Mark(_) => false
    case Kill(_, _) => false
    case Terminate => false
    case CancelAll => false
    case SetDown => false
    case SignalAll => false
    case GraceOver => false
    case Interrupt => false
    case InterruptCancel => false
    case PodCancel => false
    case _ => true
  }

  function MoveCount(steps: seq<Step>): nat {
    if steps == [] then 0 else MoveCount(steps[1..]) + if Move(steps[0]) then 1 else 0
  }

  lemma RemainingFalls(killed: bool, c: Chain, step: Step)
    requires Leaves(c.phase, step) && (c.depth == 0 <==> c.phase.NotScheduled? || c.phase.Ended?)
    ensures Remaining(Moved(true, killed, c, step)) + 1 + (if step.Started? then 1 else 0) <= Remaining(c)
  {
  }

  /** A step that moves no chain takes main, the scheduler, a process or the wrapper further. */
  lemma TokensFall(s: Sup, step: Step)
    requires Enabled(s, step)
    ensures TokensLeft(Next(s, step))
            + (if Move(step) && Mover(s, step).None? && !step.Dies? then 1 else 0) <= TokensLeft(s)
  {
    hide Leaves, Chains, Table, SpawnedBy, Origins, KilledNames, Pids, Cancels, Cancelled, Signalled;
  }

  lemma SubsetSize(a: set<Pid>, b: set<Pid>)
    requires a <= b
    ensures |a| <= |b|
  {
    assert b == a + (b - a);
  }

  /** Processes come alive only when started. */
  lemma AliveFalls(s: Sup, step: Step)
    requires Enabled(s, step)
    ensures |Alive(Next(s, step))| + (if step.Dies? then 1 else 0) <= |Alive(s)| + (if step.Started? then 1 else 0)
  {
    AliveAfter(s, step);
    hide Next, Enabled, Alive;
    if step.Started? {
      SubsetSize(Alive(Next(s, step)), Alive(s) + {step.pid});
    } else if step.Dies? {
      SubsetSize(Alive(Next(s, step)), Alive(s) - {step.pid});
    } else {
      SubsetSize(Alive(Next(s, step)), Alive(s));
    }
  }

  lemma AliveAfter(s: Sup, step: Step)
    requires Enabled(s, step)
    ensures step.Started? ==> Alive(Next(s, step)) <= Alive(s) + {step.pid}
    ensures step.Dies? ==> step.pid in Alive(s) && Alive(Next(s, step)) <= Alive(s) - {step.pid}
    ensures !step.Started? ==> Alive(Next(s, step)) <= Alive(s)
  {
    assert Next(s, step).table == Table(s, step);
    hide Next, Leaves, Mover;
  }

  lemma ChainsFall(s: Sup, step: Step)
    requires Scheduling(s) && s.shutdown && Enabled(s, step)
    ensures Sum(Remaining, Next(s, step).chains)
            + (if Mover(s, step).Some? then 1 else 0) + (if step.Started? then 1 else 0) <= Sum(Remaining, s.chains)
  {
    hide Sum, Next, Enabled, Mover, Moved, Leaves, Remaining;
    SumAfter(Remaining, s, step);
    StartMoves(s, step);
    if Mover(s, step).Some? {
      var i := Mover(s, step).value;
      assert s.chains[i].depth == 0 <==> s.chains[i].phase.NotScheduled? || s.chains[i].phase.Ended?;
      RemainingFalls(s.chains[i].name in s.killed, s.chains[i], step);
    }
  }

  lemma MeasureStep(s: Sup, step: Step)
    requires Scheduling(s) && s.shutdown && Enabled(s, step)
    ensures Next(s, step).shutdown
    ensures Measure(Next(s, step)) + (if Move(step) then 1 else 0) <= Measure(s)
  {
    hide Sum, Next, Enabled, Mover, Scheduling, Move, Alive, TokensLeft;
    ChainsFall(s, step);
    TokensFall(s, step);
    AliveFalls(s, step);
    FlagsAfter(s, step);
  }

  /**
   Shutdown terminates, under every interleaving: from any state with the flag set, however signals,
   kills, marks and lock retries are mixed in, only `Measure` many more moves are possible.
   */
  lemma {:induction false} ShutdownTerminates(s: Sup, steps: seq<Step>)
    requires Inv(s) && s.shutdown && Valid(s, steps)
    ensures MoveCount(steps) + Measure(Exec(s, steps)) <= Measure(s)
    ensures Exec(s, steps).shutdown
    decreases |steps|
  {
    hide Inv, Next, Enabled, Measure, Move;
    if steps != [] {
      SchedulingOf(s);
      MeasureStep(s, steps[0]);
      InvStep(s, steps[0]);
      ShutdownTerminates(Next(s, steps[0]), steps[1..]);
    }
  }

  lemma SchedulingOf(s: Sup)
    requires Inv(s)
    ensures Scheduling(s)
  {
  }

  /**
   Nor does it end by getting stuck: once the context is done too, every chain that has not ended can move,
   or is waiting only for its child to die or for its turn with the scheduler.
   */
  lemma NoChainIsStuck(s: Sup, i: nat) returns (step: Step)
    requires Reachable(s) && !s.exited && s.ctxDone && i < |s.chains| && !s.chains[i].phase.Ended?
    ensures Enabled(s, step) && Move(step) && !step.MainReturns?
    ensures
      || Mover(s, step) == Some(i)
      || (step.Schedule? && s.chains[i].phase.NotScheduled?)
      || (step == StartFailed(i) && s.chains[i].phase.Starting?)
      || (s.chains[i].phase.Running? && step == Dies(s.chains[i].phase.pid))
  {
    hide Enabled, Mover, Move;
    ReachableInv(s);
    CanSchedule(s, i);
    CanReap(s, i);
    hide Inv;
    step := Unstuck(s, i);
  }

  lemma {:induction false} ReachesRun(s: Sup, t: Sup, steps: seq<Step>)
    requires Reaches(s, t) && Valid(t, steps)
    ensures Reaches(s, Exec(t, steps))
  {
    var before :| Valid(s, before) && Exec(s, before) == t;
    hide Valid, Exec;
    ExecConcat(s, before, steps);
  }

  /**
   Shutdown completes: any run under the flag makes at most `Measure` moves, and if it has come to a done
   context and to where no chain, process or scheduler can move any more, every command has ended or the
   wrapper has exited; if main cannot return either, the wrapper has exited.
   */
  lemma ShutdownCompletes(s: Sup, steps: seq<Step>)
    requires Reachable(s) && s.shutdown && Valid(s, steps) && Exec(s, steps).ctxDone
    requires forall step | Move(step) && !step.MainReturns? :: !Enabled(Exec(s, steps), step)
    ensures MoveCount(steps) <= Measure(s)
    ensures AllEnded(Exec(s, steps)) || Exec(s, steps).exited
    ensures !Enabled(Exec(s, steps), MainReturns) ==> Exec(s, steps).exited
  {
    hide Inv, Enabled, Move, Valid, Exec, Measure, Init, Reaches;
    var t := Exec(s, steps);
    ReachableInv(s);
    ShutdownTerminates(s, steps);
    var init: Sup :| Init(init) && Reaches(init, s);
    ReachesRun(init, s, steps);
    if !t.exited {
      forall i | 0 <= i < |t.chains| ensures t.chains[i].phase.Ended? {
        if !t.chains[i].phase.Ended? {
          var step := NoChainIsStuck(t, i);
        }
      }
      EndedMayReturn(t);
    }
  }

  /** With all commands ended, main and the scheduler can finish. */
  lemma EndedMayReturn(s: Sup)
    requires Reachable(s) && AllEnded(s) && !s.exited
    ensures Move(MainAdd) && Move(SchedulerDone)
    ensures Enabled(s, MainAdd) || Enabled(s, SchedulerDone) || Enabled(s, MainReturns)
  {
    WaitGroupConservation(s);
    ReachableInv(s);
    AllScheduled(s);
    hide Inv, Sum;
  }

  lemma AllScheduled(s: Sup)
    requires Inv(s) && AllEnded(s)
    ensures s.scheduled == |s.chains|
  {
    hide Counted, Children, Recorded, Named, CancelsNamed, Routines, PastCancelled, NotDropped, LeasesInPlace;
    if s.chains != [] {
      assert s.chains[|s.chains| - 1].phase.Ended?;
    }
  }

  lemma CanSchedule(s: Sup, i: nat)
    requires Inv(s) && i < |s.chains|
    ensures s.chains[i].phase.NotScheduled? ==>
      !s.schedulerDone && s.scheduled < |s.chains| && s.chains[s.scheduled].phase.NotScheduled?
  {
    hide Counted, Children, Recorded, Named, Routines, PastCancelled, NotDropped, LeasesInPlace, CancelExplained;
  }

  lemma CanReap(s: Sup, i: nat)
    requires Inv(s) && i < |s.chains|
    ensures s.chains[i].phase.Running? ==> s.chains[i].phase.pid in s.table
  {
    hide Counted, Scheduling, Recorded, Named, Routines, PastCancelled, NotDropped, LeasesInPlace, CancelExplained;
  }

  lemma Unstuck(s: Sup, i: nat) returns (step: Step)
    requires !s.exited && s.ctxDone && i < |s.chains| && !s.chains[i].phase.Ended?
    requires s.chains[i].phase.NotScheduled? ==>
      !s.schedulerDone && s.scheduled < |s.chains| && s.chains[s.scheduled].phase.NotScheduled?
    requires s.chains[i].phase.Running? ==> s.chains[i].phase.pid in s.table
    ensures Enabled(s, step) && Move(step) && !step.MainReturns?
    ensures
      || Mover(s, step) == Some(i)
      || (step.Schedule? && s.chains[i].phase.NotScheduled?)
      || (step == StartFailed(i) && s.chains[i].phase.Starting?)
      || (s.chains[i].phase.Running? && step == Dies(s.chains[i].phase.pid))
  {
    match s.chains[i].phase {
      case NotScheduled => step := Schedule;
      case Preparing => step := Prepare(i);
      case Acquiring => step := if s.chains[i].locked then AcquireCancelled(i) else SkipLock(i);
      case Starting => step := StartFailed(i);
      case Registering(_) => step := Register(i);
      case Arming(_) => step := Arm(i);
      case Running(pid) => step := if s.table[pid].alive then Dies(pid) else Reap(i);
      case ReadingKilled => step := ReadKilled(i);
      case ReadingShutdown => step := ReadShutdown(i);
      case ReadingShutdownAgain => step := ReadShutdownAgain(i);
      case ReadingKilledAgain => step := ReadKilledAgain(i);
      case Clearing => step := Clear(i);
      case Cancelling(_) => step := CancelOwn(i);
      case ReadingShutdownLast => step := ReadShutdownLast(i);
      case Adding => step := AddFrame(i);
      case Ending => step := Unwind(i);
    }
  }

  // ---------- One process per command, and kills that hit it ----------

  /** At most one process of a command is not yet waited for. */
  lemma SingleIncarnation(s: Sup, p: Pid, q: Pid)
    requires Reachable(s) && p in s.table && q in s.table && s.table[p].owner == s.table[q].owner
    ensures p == q
  {
    ReachableInv(s);
  }

  /**
   A kill by a health or memory routine that finds a process at its pid hits the very process of its own
   command that the routine was spawned for, and no other.
   */
  lemma KillsHitTheirOwn(s: Sup, i: nat, p: Pid)
    requires Reachable(s) && Enabled(s, Kill(i, p)) && p in s.table
    ensures s.table[p].owner == i && HasChild(s.chains[i].phase) && s.chains[i].phase.pid == p
    ensures Next(s, Kill(i, p)).table == s.table[p := Process(i, false)]
  {
    ReachableInv(s);
    assert i < |s.chains| && p in s.chains[i].routines;
    assert Next(s, Kill(i, p)).table == Dead(s.table, p);
    hide Enabled;
  }

  // ---------- Leases ----------

  lemma {:induction false} FramesIncrease(s: Sup, i: nat, a: nat, b: nat)
    requires LeasesInPlace(s) && i < |s.chains| && a < b < |s.chains[i].starts|
    ensures s.chains[i].starts[a].frame < s.chains[i].starts[b].frame
    decreases b - a
  {
    assert StartInPlace(s, i, s.chains[i], a);
    if a + 1 < b {
      FramesIncrease(s, i, a + 1, b);
    }
  }

  /**
   No locked process without a lease: every start of a command with a shared lock carries a lease that its
   own frame was issued, and no two starts, of any commands, carry the same lease.
   */
  lemma LockedStartsAreLeased(s: Sup, i: nat, a: nat, j: nat, b: nat)
    requires Reachable(s)
    requires i < |s.chains| && a < |s.chains[i].starts| && j < |s.chains| && b < |s.chains[j].starts|
    ensures s.chains[i].locked ==>
      && s.chains[i].starts[a].lease.Some? && s.chains[i].starts[a].lease.value in s.origins
      && s.origins[s.chains[i].starts[a].lease.value] == Origin(i, s.chains[i].starts[a].frame)
    ensures s.chains[i].starts[a].lease.Some? && s.chains[i].starts[a].lease == s.chains[j].starts[b].lease ==>
      i == j && a == b
  {
    ReachableInv(s);
    assert StartInPlace(s, i, s.chains[i], a) && StartInPlace(s, j, s.chains[j], b);
    if i == j && a < b {
      FramesIncrease(s, i, a, b);
    } else if i == j && b < a {
      FramesIncrease(s, i, b, a);
    }
  }

  /** Giving up on the lock because the context is done leaves no way to start the process. */
  lemma NoLeaseNoStart(s: Sup, i: nat, pid: Pid)
    requires Reachable(s) && Enabled(s, Started(i, pid)) && s.chains[i].locked
    ensures s.chains[i].lease.Some?
  {
    ReachableInv(s);
    assert At(s, i, Starting) && !s.ctxDone;
    hide Enabled;
    assert FrameInPlace(s, i);
  }

  // ---------- Cancellation ----------

  /**
   The handler's two ways of cancelling the context, after the grace period and at once, are taken only with
   the flag set; a context done without the flag is the pod status routine's doing.
   */
  lemma CancelAfterShutdown(s: Sup)
    requires Reachable(s)
    ensures Enabled(s, GraceOver) || Enabled(s, InterruptCancel) ==> s.shutdown
    ensures s.ctxDone ==> s.shutdown || s.podDone
  {
    ReachableInv(s);
    hide Counted, Scheduling, Children, Recorded, Named, CancelsNamed, Routines, PastCancelled, NotDropped;
    hide LeasesInPlace, Leaves;
  }

  // ---------- Routines ----------

  /**
   No routines of the past: by the time a command starts another process, the routines of all its earlier
   ones have been cancelled, and the latest's too from the moment its frame has decided to restart.
   */
  lemma EarlierRoutinesCancelled(s: Sup, i: nat, a: nat)
    requires Reachable(s) && i < |s.chains| && a < |s.chains[i].starts|
    requires a + 1 < |s.chains[i].starts| || RoutinesGone(s.chains[i].phase)
    ensures s.chains[i].starts[a].pid in s.cancelled
  {
    ReachableInv(s);
  }
}
