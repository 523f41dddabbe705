/**
 Runs of the supervisor that bring commands up and down one after the other: they show that states with
 every command running, and with every command ended, are reached from any configuration.
 */
module Staging {
  import opened Wrappers
  import opened Supervisor
  import opened SupervisorResults

  lemma ReachesSelf(s: Sup)
    ensures Reaches(s, s)
  {
    assert Valid(s, []) && Exec(s, []) == s;
  }

  lemma ReachesStep(s: Sup, t: Sup, step: Step)
    requires Reaches(s, t) && Enabled(t, step)
    ensures Reaches(s, Next(t, step))
  {
    var steps :| Valid(s, steps) && Exec(s, steps) == t;
    hide Next, Enabled;
    ExecOne(t, step);
    ExecConcat(s, steps, [step]);
  }

  // ---------- Single steps, spelled out ----------

  /** A step that changes nothing but the chain it moves. */
  predicate MovesOnly(step: Step) {
    step.Prepare? || step.SkipLock? || step.ReadKilled? || step.ReadShutdown?
  }

  lemma MoveOnly(s: Sup, step: Step, i: nat)
    requires Enabled(s, step) && Mover(s, step) == Some(i) && MovesOnly(step) && s.wg >= 0
    ensures i < |s.chains| && Leaves(s.chains[i].phase, step)
    ensures Next(s, step) == s.(chains := s.chains[i := MovedIn(s, i, step)])
  {
    hide Moved, Guard, Leaves;
  }

  lemma ScheduleStep(s: Sup, i: nat)
    requires !s.exited && s.wg >= 0 && !s.schedulerDone
    requires s.scheduled == i < |s.chains| && s.chains[i].phase.NotScheduled?
    ensures Enabled(s, Schedule)
    ensures Next(s, Schedule) == s.(wg := s.wg + 1, scheduled := i + 1, chains := s.chains[i := NewFrame(s.chains[i])])
  {
  }

  lemma AcquiredStep(s: Sup, i: nat, l: LeaseId)
    requires !s.exited && s.wg >= 0 && i < |s.chains| && s.chains[i].phase.Acquiring? && s.chains[i].locked
    requires l !in s.origins
    ensures Enabled(s, Acquired(i, l))
    ensures Next(s, Acquired(i, l)) ==
            s.(chains := s.chains[i := s.chains[i].(phase := Starting, lease := Some(l))],
               origins := s.origins[l := Origin(i, s.chains[i].frames)])
  {
  }

  function Spawned(c: Chain, pid: Pid): Chain {
    c.(phase := Registering(pid), starts := c.starts + [Start(pid, c.frames, c.lease)])
  }

  lemma StartedStep(s: Sup, i: nat, pid: Pid)
    requires !s.exited && s.wg >= 0 && i < |s.chains| && s.chains[i].phase.Starting?
    requires !s.ctxDone && pid !in s.spawnedBy
    ensures Enabled(s, Started(i, pid))
    ensures Next(s, Started(i, pid)) ==
            s.(chains := s.chains[i := Spawned(s.chains[i], pid)], table := s.table[pid := Process(i, true)],
               spawnedBy := s.spawnedBy[pid := i])
  {
  }

  lemma RegisterStep(s: Sup, i: nat)
    requires !s.exited && s.wg >= 0 && i < |s.chains| && s.chains[i].phase.Registering?
    ensures Enabled(s, Register(i))
    ensures var c := s.chains[i];
      Next(s, Register(i)) ==
      s.(chains := s.chains[i := c.(phase := Arming(c.phase.pid))], pids := s.pids[c.name := c.phase.pid])
  {
  }

  lemma ArmStep(s: Sup, i: nat)
    requires !s.exited && s.wg >= 0 && i < |s.chains| && s.chains[i].phase.Arming?
    ensures Enabled(s, Arm(i))
    ensures var c := s.chains[i];
      Next(s, Arm(i)) ==
      s.(chains := s.chains[i := c.(phase := Running(c.phase.pid), routines := c.routines + {c.phase.pid})],
         cancels := s.cancels[c.name := c.phase.pid])
  {
  }

  lemma DiesStep(s: Sup, pid: Pid)
    requires !s.exited && s.wg >= 0 && pid in s.table && s.table[pid].alive
    ensures Enabled(s, Dies(pid))
    ensures Next(s, Dies(pid)) == s.(table := s.table[pid := s.table[pid].(alive := false)])
  {
  }

  lemma ReapStep(s: Sup, i: nat)
    requires !s.exited && s.wg >= 0 && i < |s.chains| && s.chains[i].phase.Running?
    requires s.chains[i].phase.pid in s.table && !s.table[s.chains[i].phase.pid].alive
    ensures Enabled(s, Reap(i))
    ensures Next(s, Reap(i)) ==
            s.(chains := s.chains[i := s.chains[i].(phase := ReadingKilled)],
               table := s.table - {s.chains[i].phase.pid})
  {
  }

  lemma CancelOwnStep(s: Sup, i: nat)
    requires !s.exited && s.wg >= 0 && i < |s.chains| && s.chains[i].phase == Cancelling(true)
    ensures Enabled(s, CancelOwn(i))
    ensures Next(s, CancelOwn(i)) ==
            s.(chains := s.chains[i := s.chains[i].(phase := Ending)], cancelled := s.cancelled + OwnPid(s.chains[i]))
  {
  }

  lemma UnwindStep(s: Sup, i: nat)
    requires !s.exited && s.wg >= 1 && i < |s.chains| && s.chains[i].phase.Ending? && s.chains[i].depth <= 1
    ensures Enabled(s, Unwind(i))
    ensures Next(s, Unwind(i)) == s.(wg := s.wg - 1, chains := s.chains[i := s.chains[i].(phase := Ended, depth := 0)])
  {
  }

  lemma InterruptStep(s: Sup)
    requires !s.exited && s.wg >= 0 && s.handler.Listening?
    ensures Enabled(s, Interrupt) && Next(s, Interrupt) == s.(shutdown := true, handler := IntDown)
  {
  }

  lemma UpdatedTwice(chains: seq<Chain>, i: nat, c: Chain, d: Chain)
    requires i < |chains|
    ensures chains[i := c][i := d] == chains[i := d] && chains[i := c][i] == c
  {
  }

  // ---------- One chain up, one chain down ----------

  ghost predicate CanGoUp(s: Sup, i: nat) {
    && !s.exited && !s.ctxDone && s.wg >= 0 && !s.schedulerDone && s.scheduled == i < |s.chains|
    && s.chains[i].phase.NotScheduled? && i !in s.spawnedBy && i !in s.origins
  }

  function Launched(c: Chain, i: nat): Chain {
    NewFrame(c).(phase := Starting, lease := if c.locked then Some(i) else None)
  }

  lemma PrepareOne(init: Sup, s: Sup, i: nat) returns (t: Sup)
    requires Reaches(init, s) && CanGoUp(s, i)
    ensures Reaches(init, t)
    ensures i < |s.chains|
    ensures t == s.(wg := s.wg + 1, scheduled := i + 1,
                    chains := s.chains[i := NewFrame(s.chains[i]).(phase := Acquiring, lease := None)])
  {
    hide Next, Enabled, Reaches;
    ScheduleStep(s, i);
    ReachesStep(init, s, Schedule);
    var s1 := Next(s, Schedule);
    UpdatedTwice(s.chains, i, NewFrame(s.chains[i]), NewFrame(s.chains[i]).(phase := Acquiring, lease := None));
    PrepareIs(s1, i);
    ReachesStep(init, s1, Prepare(i));
    t := Next(s1, Prepare(i));
  }

  /** The next chain is launched, up to the start of its process, with lease `i` if it needs one. */
  lemma LaunchOne(init: Sup, s: Sup, i: nat) returns (t: Sup)
    requires Reaches(init, s) && CanGoUp(s, i)
    ensures Reaches(init, t)
    ensures i < |s.chains|
    ensures t == s.(wg := s.wg + 1, scheduled := i + 1, chains := s.chains[i := Launched(s.chains[i], i)],
                    origins := if s.chains[i].locked
                               then s.origins[i := Origin(i, s.chains[i].frames + 1)] else s.origins)
  {
    hide Next, Enabled, Reaches;
    var c := s.chains[i];
    var ready := PrepareOne(init, s, i);
    UpdatedTwice(s.chains, i, NewFrame(c).(phase := Acquiring, lease := None), Launched(c, i));
    if c.locked {
      AcquiredStep(ready, i, i);
      ReachesStep(init, ready, Acquired(i, i));
      t := Next(ready, Acquired(i, i));
    } else {
      SkipLockIs(ready, i);
      ReachesStep(init, ready, SkipLock(i));
      t := Next(ready, SkipLock(i));
    }
  }

  lemma PrepareIs(s: Sup, i: nat)
    requires !s.exited && s.wg >= 0 && i < |s.chains| && s.chains[i].phase.Preparing?
    ensures Enabled(s, Prepare(i))
    ensures Next(s, Prepare(i)) == s.(chains := s.chains[i := s.chains[i].(phase := Acquiring, lease := None)])
  {
    MoveOnly(s, Prepare(i), i);
    hide Next;
  }

  lemma SkipLockIs(s: Sup, i: nat)
    requires !s.exited && s.wg >= 0 && i < |s.chains| && s.chains[i].phase.Acquiring? && !s.chains[i].locked
    ensures Enabled(s, SkipLock(i))
    ensures Next(s, SkipLock(i)) == s.(chains := s.chains[i := s.chains[i].(phase := Starting)])
  {
    MoveOnly(s, SkipLock(i), i);
    hide Next;
  }

  lemma ReadKilledIs(s: Sup, i: nat)
    requires !s.exited && s.wg >= 0 && i < |s.chains|
    requires s.chains[i].phase.ReadingKilled? && s.chains[i].name !in s.killed
    ensures Enabled(s, ReadKilled(i))
    ensures Next(s, ReadKilled(i)) == s.(chains := s.chains[i := s.chains[i].(phase := ReadingShutdown)])
  {
    MoveOnly(s, ReadKilled(i), i);
    hide Next;
  }

  lemma ReadShutdownIs(s: Sup, i: nat)
    requires !s.exited && s.wg >= 0 && i < |s.chains| && s.chains[i].phase.ReadingShutdown? && s.shutdown
    ensures Enabled(s, ReadShutdown(i))
    ensures Next(s, ReadShutdown(i)) == s.(chains := s.chains[i := s.chains[i].(phase := Cancelling(true))])
  {
    MoveOnly(s, ReadShutdown(i), i);
    hide Next;
  }

  /** Its process is started as pid `i`, recorded, and given its routines. */
  lemma StartOne(init: Sup, s: Sup, i: nat) returns (t: Sup)
    requires Reaches(init, s) && !s.exited && !s.ctxDone && s.wg >= 0 && i < |s.chains| && s.chains[i].phase.Starting?
    requires i !in s.spawnedBy
    ensures Reaches(init, t)
    ensures var c := s.chains[i];
      t == s.(chains := s.chains[i := Spawned(c, i).(phase := Running(i), routines := c.routines + {i})],
              table := s.table[i := Process(i, true)], spawnedBy := s.spawnedBy[i := i],
              pids := s.pids[c.name := i], cancels := s.cancels[c.name := i])
  {
    hide Next, Enabled, Reaches;
    var c := s.chains[i];
    StartedStep(s, i, i);
    ReachesStep(init, s, Started(i, i));
    var s1 := Next(s, Started(i, i));
    UpdatedTwice(s.chains, i, Spawned(c, i), Spawned(c, i).(phase := Arming(i)));
    RegisterStep(s1, i);
    ReachesStep(init, s1, Register(i));
    var s2 := Next(s1, Register(i));
    UpdatedTwice(s.chains, i, Spawned(c, i).(phase := Arming(i)),
                 Spawned(c, i).(phase := Running(i), routines := c.routines + {i}));
    ArmStep(s2, i);
    ReachesStep(init, s2, Arm(i));
    t := Next(s2, Arm(i));
  }

  ghost predicate CanGoDown(s: Sup, i: nat) {
    && !s.exited && s.shutdown && s.wg >= 1
    && i < |s.chains| && s.chains[i].phase == Running(i) && s.chains[i].depth == 1
    && i in s.table && s.table[i].alive && s.chains[i].name !in s.killed
  }

  /** Under a shutdown, a running process dies and is waited for, and its chain ends. */
  lemma EndOne(init: Sup, s: Sup, i: nat) returns (t: Sup)
    requires Reaches(init, s) && CanGoDown(s, i)
    ensures Reaches(init, t)
    ensures i < |s.chains|
    ensures t == s.(wg := s.wg - 1, chains := s.chains[i := s.chains[i].(phase := Ended, depth := 0)],
                    table := s.table - {i}, cancelled := s.cancelled + OwnPid(s.chains[i]))
  {
    hide Next, Enabled, Reaches;
    var c := s.chains[i];
    DiesStep(s, i);
    ReachesStep(init, s, Dies(i));
    var s1 := Next(s, Dies(i));
    assert s1.table - {i} == s.table - {i};
    ReapStep(s1, i);
    ReachesStep(init, s1, Reap(i));
    UpdatedTwice(s.chains, i, c.(phase := ReadingKilled), c.(phase := Ended, depth := 0));
    t := ExamineOne(init, Next(s1, Reap(i)), i);
  }

  lemma ExamineOne(init: Sup, s: Sup, i: nat) returns (t: Sup)
    requires Reaches(init, s) && !s.exited && s.shutdown && s.wg >= 1 && i < |s.chains|
    requires s.chains[i].phase.ReadingKilled? && s.chains[i].depth == 1 && s.chains[i].name !in s.killed
    ensures Reaches(init, t)
    ensures t == s.(wg := s.wg - 1, chains := s.chains[i := s.chains[i].(phase := Ended, depth := 0)],
                    cancelled := s.cancelled + OwnPid(s.chains[i]))
  {
    hide Next, Enabled, Reaches;
    var c := s.chains[i];
    ReadKilledIs(s, i);
    ReachesStep(init, s, ReadKilled(i));
    var s1 := Next(s, ReadKilled(i));
    UpdatedTwice(s.chains, i, c.(phase := ReadingShutdown), c.(phase := Cancelling(true)));
    ReadShutdownIs(s1, i);
    ReachesStep(init, s1, ReadShutdown(i));
    var s2 := Next(s1, ReadShutdown(i));
    UpdatedTwice(s.chains, i, c.(phase := Cancelling(true)), c.(phase := Ending));
    CancelOwnStep(s2, i);
    ReachesStep(init, s2, CancelOwn(i));
    var s3 := Next(s2, CancelOwn(i));
    UpdatedTwice(s.chains, i, c.(phase := Ending), c.(phase := Ended, depth := 0));
    UnwindStep(s3, i);
    ReachesStep(init, s3, Unwind(i));
    t := Next(s3, Unwind(i));
  }

  // ---------- All of them ----------

  /** The first `up` chains have been started, in order, and the first `down` of them have ended. */
  ghost predicate Staged(init: Sup, s: Sup, up: nat, down: nat) {
    && |s.chains| == |init.chains| && down <= up <= |s.chains|
    && !s.exited && !s.mainAdded && !s.schedulerDone && !s.ctxDone && s.killed == {}
    && s.scheduled == up && s.wg == up - down
    && StagedChains(init, s, up, down)
    && StagedPids(s, up)
  }

  ghost predicate StagedChains(init: Sup, s: Sup, up: nat, down: nat)
    requires |s.chains| == |init.chains| && down <= up <= |s.chains|
  {
    && (forall k | 0 <= k < |s.chains| :: s.chains[k].name == init.chains[k].name)
    && (forall k | 0 <= k < down :: s.chains[k].phase.Ended?)
    && (forall k | down <= k < up ::
          s.chains[k].phase == Running(k) && s.chains[k].depth == 1 && k in s.table && s.table[k].alive)
    && (forall k | up <= k < |s.chains| :: s.chains[k].phase.NotScheduled? && s.chains[k].depth == 0)
  }

  /** Process `k` is chain `k`'s, and the one started last is the one recorded under its name. */
  ghost predicate StagedPids(s: Sup, up: nat)
    requires up <= |s.chains|
  {
    && (forall pid | pid in s.spawnedBy :: 0 <= pid < up) && (forall l | l in s.origins :: 0 <= l < up)
    && (forall k | 0 <= k < up :: k in s.spawnedBy && s.spawnedBy[k] == k)
    && (up > 0 ==> s.chains[up - 1].name in s.pids && s.pids[s.chains[up - 1].name] == up - 1)
  }

  lemma StagedCanGoUp(init: Sup, s: Sup, n: nat)
    requires n < |init.chains| && Staged(init, s, n, 0)
    ensures CanGoUp(s, n)
  {
  }

  /** Chain `n` has gone up: what `LaunchOne` and `StartOne` make of it. */
  ghost predicate WentUp(s: Sup, n: nat, t: Sup)
    requires n < |s.chains|
  {
    var c := s.chains[n];
    && t.chains == s.chains[n := Spawned(Launched(c, n), n).(phase := Running(n), routines := c.routines + {n})]
    && t.origins == (if c.locked then s.origins[n := Origin(n, c.frames + 1)] else s.origins)
    && t.table == s.table[n := Process(n, true)] && t.spawnedBy == s.spawnedBy[n := n]
    && t.pids == s.pids[c.name := n]
  }

  lemma StagedUp(init: Sup, s: Sup, n: nat, t: Sup)
    requires n < |init.chains| && Staged(init, s, n, 0) && WentUp(s, n, t)
    ensures |t.chains| == |s.chains| && StagedChains(init, t, n + 1, 0) && StagedPids(t, n + 1)
  {
    assert forall k | 0 <= k < |s.chains| && k != n :: t.chains[k] == s.chains[k];
    assert t.chains[n].phase == Running(n) && t.chains[n].depth == 1 && t.chains[n].name == s.chains[n].name;
    StagedPidsUp(init, s, n, t);
    hide StagedPids;
  }

  lemma StagedPidsUp(init: Sup, s: Sup, n: nat, t: Sup)
    requires n < |init.chains| && Staged(init, s, n, 0) && WentUp(s, n, t)
    ensures |t.chains| == |s.chains| && StagedPids(t, n + 1)
  {
    hide StagedChains;
  }

  lemma GoUp(init: Sup, s: Sup, n: nat) returns (t: Sup)
    requires Reaches(init, s) && CanGoUp(s, n)
    ensures Reaches(init, t)
    ensures n < |s.chains| && WentUp(s, n, t) && t.handler == s.handler && t.shutdown == s.shutdown
    ensures t.signalled == s.signalled && !t.exited && !t.ctxDone && !t.schedulerDone && t.mainAdded == s.mainAdded
    ensures t.killed == s.killed && t.scheduled == n + 1 && t.wg == s.wg + 1
  {
    hide Reaches;
    var launched := LaunchOne(init, s, n);
    var c := Launched(s.chains[n], n);
    UpdatedTwice(s.chains, n, c, Spawned(c, n).(phase := Running(n), routines := c.routines + {n}));
    t := StartOne(init, launched, n);
  }

  lemma StagedInit(init: Sup)
    requires Init(init)
    ensures Staged(init, init, 0, 0) && init.handler.Listening? && !init.shutdown && init.signalled == {}
  {
  }

  /** From any configuration the wrapper can come to have its first `n` commands running, nobody interfering. */
  lemma {:induction false} BringUp(init: Sup, n: nat) returns (s: Sup)
    requires Init(init) && n <= |init.chains|
    ensures Reaches(init, s) && Staged(init, s, n, 0) && s.handler.Listening? && !s.shutdown && s.signalled == {}
  {
    hide Init, Reaches, StagedChains, StagedPids, CanGoUp, WentUp;
    if n == 0 {
      s := init;
      ReachesSelf(init);
      StagedInit(init);
    } else {
      var before := BringUp(init, n - 1);
      StagedCanGoUp(init, before, n - 1);
      s := GoUp(init, before, n - 1);
      StagedUp(init, before, n - 1, s);
    }
  }

  lemma StagedDown(init: Sup, s: Sup, n: nat, t: Sup)
    requires n < |init.chains| && Staged(init, s, |init.chains|, n)
    requires t == s.(wg := s.wg - 1, chains := s.chains[n := s.chains[n].(phase := Ended, depth := 0)],
                     table := s.table - {n}, cancelled := s.cancelled + OwnPid(s.chains[n]))
    ensures Staged(init, t, |init.chains|, n + 1)
  {
    assert forall k | 0 <= k < |s.chains| && k != n :: t.chains[k] == s.chains[k];
    assert t.chains[n].phase.Ended? && t.chains[n].name == s.chains[n].name;
  }

  lemma StagedCanGoDown(init: Sup, s: Sup, n: nat)
    requires n < |init.chains| && Staged(init, s, |init.chains|, n) && s.shutdown
    ensures CanGoDown(s, n)
  {
  }

  lemma {:induction false} BringDown(init: Sup, up: Sup, n: nat) returns (s: Sup)
    requires Reaches(init, up) && Staged(init, up, |init.chains|, 0) && up.shutdown && n <= |init.chains|
    ensures Reaches(init, s) && Staged(init, s, |init.chains|, n) && s.shutdown
  {
    hide Reaches, Staged, CanGoDown;
    if n == 0 {
      s := up;
    } else {
      var before := BringDown(init, up, n - 1);
      StagedCanGoDown(init, before, n - 1);
      s := EndOne(init, before, n - 1);
      StagedDown(init, before, n - 1, s);
    }
  }

  /** Every command started, and then ended by a fast shutdown. */
  lemma EndAll(init: Sup) returns (s: Sup)
    requires Init(init)
    ensures Reaches(init, s) && !s.exited && s.wg == 0 && !s.schedulerDone && !s.mainAdded && s.scheduled == |s.chains|
  {
    hide Reaches, Init, Next, Enabled, StagedChains, StagedPids;
    var up := BringUp(init, |init.chains|);
    var told := TellAll(init, up);
    s := BringDown(init, told, |init.chains|);
  }

  lemma StagedTold(s: Sup, told: Sup, up: nat)
    requires up <= |s.chains| && StagedPids(s, up) && told == s.(shutdown := true, handler := IntDown)
    ensures StagedPids(told, up)
  {
  }

  lemma TellAll(init: Sup, up: Sup) returns (told: Sup)
    requires Reaches(init, up) && Staged(init, up, |init.chains|, 0) && up.handler.Listening?
    ensures Reaches(init, told) && Staged(init, told, |init.chains|, 0) && told.shutdown
  {
    hide Reaches, Next, Enabled, StagedPids;
    InterruptStep(up);
    ReachesStep(init, up, Interrupt);
    told := Next(up, Interrupt);
    StagedTold(up, told, |init.chains|);
  }

  lemma SchedulerPanics(s: Sup)
    requires !s.exited && s.wg == 0 && !s.schedulerDone && s.scheduled == |s.chains|
    ensures Enabled(s, SchedulerDone)
    ensures var t := Next(s, SchedulerDone); t.wg == -1 && t.exited && t.mainAdded == s.mainAdded
  {
  }

  /**
   The scheduler and main race, whatever the configuration: if main is slow to add its token, and every
   command has ended by then, the scheduler's `Done` takes the counter below zero and the wrapper panics.
   */
  lemma SchedulerMayPanic(init: Sup) returns (s: Sup)
    requires Init(init)
    ensures Reaches(init, s) && s.wg == -1 && s.exited && !s.mainAdded
    ensures init.chains == [] ==> s == Next(init, SchedulerDone)
  {
    if init.chains == [] {
      ReachesSelf(init);
      SchedulerPanics(init);
      ReachesStep(init, init, SchedulerDone);
      s := Next(init, SchedulerDone);
    } else {
      var down := EndAll(init);
      hide Staged, Init, Enabled, Next;
      SchedulerPanics(down);
      ReachesStep(init, down, SchedulerDone);
      s := Next(down, SchedulerDone);
    }
  }
}
