/**
 The signal handler over whole runs: the order of a graceful shutdown, whatever happens in between, and
 which processes its termination signal reaches.

 The handler signals the pids recorded by name. So a child is passed over in two ways: it has been started
 and not been recorded yet, or another process has been recorded under its name since.
 */
module Signals {
  import opened Wrappers
  import opened Supervisor
  import opened SupervisorResults
  import opened Staging
  import Schedule

  /** The state before step `n` of a run. */
  ghost function StateAt(s: Sup, steps: seq<Step>, n: nat): Sup
    requires Valid(s, steps) && n <= |steps|
    decreases n
  {
    if n == 0 then s else StateAt(Next(s, steps[0]), steps[1..], n - 1)
  }

  lemma {:induction false} StateNext(s: Sup, steps: seq<Step>, n: nat)
    requires Valid(s, steps) && n < |steps|
    ensures Enabled(StateAt(s, steps, n), steps[n])
    ensures StateAt(s, steps, n + 1) == Next(StateAt(s, steps, n), steps[n])
    decreases n
  {
    hide Next, Enabled;
    if n > 0 {
      StateNext(Next(s, steps[0]), steps[1..], n - 1);
    } else {
      assert StateAt(Next(s, steps[0]), steps[1..], 0) == Next(s, steps[0]);
    }
  }

  lemma {:induction false} StateAtEnd(s: Sup, steps: seq<Step>)
    requires Valid(s, steps)
    ensures StateAt(s, steps, |steps|) == Exec(s, steps)
    decreases |steps|
  {
    hide Next, Enabled;
    if steps != [] {
      StateAtEnd(Next(s, steps[0]), steps[1..]);
    }
  }

  lemma {:induction false} InvAt(s: Sup, steps: seq<Step>, n: nat)
    requires Inv(s) && Valid(s, steps) && n <= |steps|
    ensures Inv(StateAt(s, steps, n))
    decreases n
  {
    if n > 0 {
      InvStep(s, steps[0]);
      hide Inv, Next, Enabled;
      InvAt(Next(s, steps[0]), steps[1..], n - 1);
    }
  }

  // ---------- Flags are the history of a run ----------

  predicate CancelsContext(step: Step) {
    step.GraceOver? || step.InterruptCancel? || step.PodCancel?
  }

  predicate SetsFlag(step: Step) {
    step.SetDown? || step.Interrupt?
  }

  predicate AddsMain(step: Step) {
    step.MainAdd?
  }

  predicate EndsScheduler(step: Step) {
    step.SchedulerDone?
  }

  ghost predicate Has(steps: seq<Step>, test: Step -> bool) {
    exists k :: 0 <= k < |steps| && test(steps[k])
  }

  lemma HasNext(steps: seq<Step>, test: Step -> bool)
    requires steps != []
    ensures Has(steps, test) <==> test(steps[0]) || Has(steps[1..], test)
  {
    if Has(steps[1..], test) {
      var k :| 0 <= k < |steps[1..]| && test(steps[1..][k]);
      assert test(steps[k + 1]);
    }
    if k :| 0 <= k < |steps| && test(steps[k]) {
      assert k > 0 ==> steps[1..][k - 1] == steps[k];
    }
  }

  lemma FlagsNext(s: Sup, step: Step)
    requires Enabled(s, step)
    ensures Next(s, step).ctxDone <==> s.ctxDone || CancelsContext(step)
    ensures Next(s, step).shutdown <==> s.shutdown || SetsFlag(step)
    ensures Next(s, step).mainAdded <==> s.mainAdded || AddsMain(step)
    ensures Next(s, step).schedulerDone <==> s.schedulerDone || EndsScheduler(step)
  {
    hide Enabled, Chains, Table, Origins, KilledNames, Pids, Cancels, Cancelled;
  }

  lemma {:induction false} FlagsSince(s: Sup, steps: seq<Step>)
    requires Valid(s, steps)
    ensures Exec(s, steps).ctxDone <==> s.ctxDone || Has(steps, CancelsContext)
    ensures Exec(s, steps).shutdown <==> s.shutdown || Has(steps, SetsFlag)
    ensures Exec(s, steps).mainAdded <==> s.mainAdded || Has(steps, AddsMain)
    ensures Exec(s, steps).schedulerDone <==> s.schedulerDone || Has(steps, EndsScheduler)
    decreases |steps|
  {
    hide Next, Enabled, Has, CancelsContext, SetsFlag, AddsMain, EndsScheduler;
    if steps == [] {
      HasNone(steps);
    } else {
      FlagsNext(s, steps[0]);
      FlagsSince(Next(s, steps[0]), steps[1..]);
      HasNext(steps, CancelsContext);
      HasNext(steps, SetsFlag);
      HasNext(steps, AddsMain);
      HasNext(steps, EndsScheduler);
    }
  }

  lemma HasNone(steps: seq<Step>)
    ensures steps == [] ==> forall test: Step -> bool :: !Has(steps, test)
  {
  }

  /**
   Over any run the context is done if and only if a grace period has ended, an interrupt has cancelled it, or
   the pod status routine has; the flag is set if and only if a graceful or a fast shutdown has set it; and
   main's token and the scheduler's are added and given back by their own steps only.
   */
  lemma FlagsAreHistory(init: Sup, steps: seq<Step>)
    requires Init(init) && Valid(init, steps)
    ensures Exec(init, steps).ctxDone <==>
      exists k :: 0 <= k < |steps| && steps[k] in {GraceOver, InterruptCancel, PodCancel}
    ensures Exec(init, steps).shutdown <==> exists k :: 0 <= k < |steps| && steps[k] in {SetDown, Interrupt}
    ensures Exec(init, steps).mainAdded <==> MainAdd in steps
    ensures Exec(init, steps).schedulerDone <==> SchedulerDone in steps
  {
    assert !init.ctxDone && !init.shutdown && !init.mainAdded && !init.schedulerDone;
    hide Init, Valid, Exec;
    FlagsSince(init, steps);
  }

  // ---------- The order of a graceful shutdown ----------

  /** A step of the signal handler. */
  predicate HandlerStep(step: Step) {
    || step.Terminate? || step.CancelAll? || step.SetDown? || step.SignalAll? || step.GraceOver?
    || step.Interrupt? || step.InterruptCancel?
  }

  lemma HandlerMoves(s: Sup, step: Step)
    requires Enabled(s, step)
    ensures Next(s, step).handler == HandlerAfter(s.handler, step)
    ensures !HandlerStep(step) ==> Next(s, step).handler == s.handler
    ensures Next(s, step).handler.TermSignalled? && HandlerStep(step) ==> step.SignalAll? && s.handler.TermDown?
    ensures Next(s, step).handler.TermDown? && HandlerStep(step) ==> step.SetDown? && s.handler.TermCancelled?
    ensures Next(s, step).handler.TermCancelled? && HandlerStep(step) ==> step.CancelAll? && s.handler.Terminating?
  {
    hide Chains, Table, SpawnedBy, Origins, KilledNames, Pids, Cancels, Cancelled, Signalled, Leaves;
  }

  /** The handler's last step before position `n`, when it is not listening there. */
  lemma {:induction false} LastHandlerStep(s: Sup, steps: seq<Step>, n: nat) returns (k: nat)
    requires Valid(s, steps) && n <= |steps| && s.handler.Listening? && !StateAt(s, steps, n).handler.Listening?
    ensures k < n && HandlerStep(steps[k]) && Enabled(StateAt(s, steps, k), steps[k])
    ensures Next(StateAt(s, steps, k), steps[k]).handler == StateAt(s, steps, n).handler
    ensures forall m | k < m < n :: !HandlerStep(steps[m]) && !steps[m].SignalAll?
    decreases n
  {
    hide Next, Enabled;
    k := n - 1;
    StateNext(s, steps, k);
    HandlerMoves(StateAt(s, steps, k), steps[k]);
    if !HandlerStep(steps[k]) {
      k := LastHandlerStep(s, steps, n - 1);
    }
  }

  /** What a handler has done is not undone. */
  ghost predicate DoneStays(s: Sup, t: Sup) {
    (s.shutdown ==> t.shutdown) && s.signalled <= t.signalled && s.cancelled <= t.cancelled
  }

  lemma DoneStaysStep(s: Sup, step: Step)
    requires Enabled(s, step)
    ensures DoneStays(s, Next(s, step))
  {
    hide Mover, Leaves, Guard, Chains, Table, SpawnedBy, Origins, KilledNames, Pids, Cancels;
  }

  lemma {:induction false} DoneStaysRun(s: Sup, steps: seq<Step>, lo: nat, hi: nat)
    requires Valid(s, steps) && lo <= hi <= |steps|
    ensures DoneStays(StateAt(s, steps, lo), StateAt(s, steps, hi))
    decreases hi
  {
    hide Next, Enabled;
    if lo != hi {
      DoneStaysRun(s, steps, lo, hi - 1);
      StateNext(s, steps, hi - 1);
      DoneStaysStep(StateAt(s, steps, hi - 1), steps[hi - 1]);
    }
  }

  // ---------- Which children the handler finds ----------

  /** The name of the command that a process not yet waited for belongs to. */
  function OwnerName(s: Sup, pid: Pid): string
    requires pid in s.table
  {
    if s.table[pid].owner < |s.chains| then s.chains[s.table[pid].owner].name else ""
  }

  /** The process is the one recorded last under the name. */
  ghost predicate Latest(s: Sup, pid: Pid, name: string) {
    name in s.pids && s.pids[name] == pid
  }

  /** The process is the last one whose routines can be cancelled by the name. */
  ghost predicate LatestArmed(s: Sup, pid: Pid, name: string) {
    name in s.cancels && s.cancels[name] == pid
  }

  lemma SignalsRecorded(t: Sup)
    requires Enabled(t, SignalAll)
    ensures Next(t, SignalAll).signalled == t.signalled + t.pids.Values
  {
  }

  lemma CancelsArmed(t: Sup)
    requires Enabled(t, CancelAll)
    ensures Next(t, CancelAll).cancelled == t.cancelled + t.cancels.Values
  {
  }

  lemma OwnersName(s: Sup, pid: Pid)
    requires Inv(s) && pid in s.table
    ensures pid in s.pids.Values <==> Latest(s, pid, OwnerName(s, pid))
    ensures pid in s.cancels.Values <==> LatestArmed(s, pid, OwnerName(s, pid))
  {
    hide Counted, Scheduling, Recorded, Routines, PastCancelled, NotDropped, LeasesInPlace, CancelExplained;
    assert pid in s.spawnedBy && s.spawnedBy[pid] == s.table[pid].owner < |s.chains|;
    forall name | name in s.pids && s.pids[name] == pid ensures name == OwnerName(s, pid) {
      assert s.chains[s.spawnedBy[s.pids[name]]].name == name;
    }
    forall name | name in s.cancels && s.cancels[name] == pid ensures name == OwnerName(s, pid) {
      assert s.chains[s.spawnedBy[s.cancels[name]]].name == name;
    }
  }

  /**
   Which children a termination signal reaches, exactly: of the processes not yet waited for, it goes to those
   recorded last under the name of their command, and to no other.
   */
  lemma ReachedExactly(s: Sup, pid: Pid)
    requires Reachable(s) && Enabled(s, SignalAll) && pid in s.table
    ensures pid in Next(s, SignalAll).signalled <==> pid in s.signalled || Latest(s, pid, OwnerName(s, pid))
  {
    hide Inv, Next, Enabled, Latest, LatestArmed;
    ReachableInv(s);
    OwnersName(s, pid);
    SignalsRecorded(s);
  }

  /** A child has been recorded under its command's name. */
  predicate Registered(phase: Phase) {
    phase.Arming? || phase.Running?
  }

  /** A recorded child of a command whose name no other has is the one recorded last. */
  lemma AloneIsLatest(s: Sup, i: nat)
    requires Inv(s) && i < |s.chains| && !Shadowed(s, i) && Registered(s.chains[i].phase)
    ensures s.chains[i].phase.pid in s.table && OwnerName(s, s.chains[i].phase.pid) == s.chains[i].name
    ensures Latest(s, s.chains[i].phase.pid, s.chains[i].name)
    ensures s.chains[i].phase.Running? ==> LatestArmed(s, s.chains[i].phase.pid, s.chains[i].name)
  {
    hide Counted, Scheduling, Named, CancelsNamed, Routines, PastCancelled, NotDropped, LeasesInPlace, CancelExplained;
    hide Shadowed;
  }

  /**
   A graceful shutdown over any run, whatever is interleaved. When its grace period ends, and the context is
   about to be cancelled, the handler has cancelled the routines, then set the flag, then signalled, in this
   order and with nothing else in between, and the flag has been set ever since. Of the children there were
   when it signalled, exactly those recorded last under their command's name have been sent the signal, now
   or by an earlier shutdown; of those there were when it cancelled, the ones whose routines were the last
   spawned under their name have had them cancelled. Then the context is cancelled, and the handler listens.
   */
  lemma GracefulShutdown(init: Sup, steps: seq<Step>) returns (cancel: nat, down: nat, signal: nat)
    requires Init(init) && Valid(init, steps) && Enabled(Exec(init, steps), GraceOver)
    ensures cancel < down < signal < |steps|
    ensures steps[cancel] == CancelAll && steps[down] == SetDown && steps[signal] == SignalAll
    ensures forall m | cancel < m < |steps| && HandlerStep(steps[m]) :: m == down || m == signal
    ensures forall m | down < m <= |steps| :: StateAt(init, steps, m).shutdown
    ensures var s := StateAt(init, steps, cancel);
      forall pid | pid in s.table && LatestArmed(s, pid, OwnerName(s, pid)) :: pid in Exec(init, steps).cancelled
    ensures var s := StateAt(init, steps, signal);
      forall pid | pid in s.table ::
        pid in Exec(init, steps).signalled <==> pid in s.signalled || Latest(s, pid, OwnerName(s, pid))
    ensures var t := Next(Exec(init, steps), GraceOver); t.ctxDone && t.shutdown && t.handler.Listening?
  {
    hide Inv, Init, Next, Enabled, Latest, LatestArmed, OwnerName, HandlerStep;
    GraceOverCancels(Exec(init, steps));
    cancel, down, signal := HandlerOrder(init, steps);
    InitInv(init);
    StateAtEnd(init, steps);
    CancelledSince(init, steps, cancel);
    SignalledSince(init, steps, signal);
    StateNext(init, steps, down);
    DownAfter(StateAt(init, steps, down));
    forall m | down < m <= |steps| ensures StateAt(init, steps, m).shutdown {
      DoneStaysRun(init, steps, down + 1, m);
    }
  }

  lemma GraceOverCancels(s: Sup)
    requires Enabled(s, GraceOver)
    ensures var t := Next(s, GraceOver); t.ctxDone && t.handler.Listening? && t.shutdown == s.shutdown
  {
  }

  lemma CancelledSince(s: Sup, steps: seq<Step>, n: nat)
    requires Inv(s) && Valid(s, steps) && n < |steps| && steps[n] == CancelAll
    ensures var t := StateAt(s, steps, n);
      forall pid | pid in t.table && LatestArmed(t, pid, OwnerName(t, pid)) ::
        pid in StateAt(s, steps, |steps|).cancelled
  {
    hide Inv, Next, Enabled;
    StateNext(s, steps, n);
    CancelsArmed(StateAt(s, steps, n));
    DoneStaysRun(s, steps, n + 1, |steps|);
  }

  lemma SignalledSince(s: Sup, steps: seq<Step>, n: nat)
    requires Inv(s) && Valid(s, steps) && n < |steps| && steps[n] == SignalAll
    requires forall m | n < m < |steps| :: !steps[m].SignalAll?
    ensures var t := StateAt(s, steps, n);
      forall pid | pid in t.table ::
        pid in StateAt(s, steps, |steps|).signalled <==> pid in t.signalled || Latest(t, pid, OwnerName(t, pid))
  {
    hide Inv, Next, Enabled, Latest, LatestArmed;
    var t := StateAt(s, steps, n);
    InvAt(s, steps, n);
    StateNext(s, steps, n);
    SignalsRecorded(t);
    NoneSignalled(s, steps, n + 1, |steps|);
    forall pid | pid in t.table
      ensures pid in StateAt(s, steps, |steps|).signalled <==> pid in t.signalled || Latest(t, pid, OwnerName(t, pid))
    {
      OwnersName(t, pid);
    }
  }

  /** Only the handler's step signals. */
  lemma {:induction false} NoneSignalled(s: Sup, steps: seq<Step>, lo: nat, hi: nat)
    requires Valid(s, steps) && lo <= hi <= |steps| && forall m | lo <= m < hi :: !steps[m].SignalAll?
    ensures StateAt(s, steps, hi).signalled == StateAt(s, steps, lo).signalled
    decreases hi
  {
    hide Next, Enabled;
    if lo != hi {
      NoneSignalled(s, steps, lo, hi - 1);
      StateNext(s, steps, hi - 1);
      SignalledAfter(StateAt(s, steps, hi - 1), steps[hi - 1]);
    }
  }

  lemma SignalledAfter(s: Sup, step: Step)
    requires Enabled(s, step)
    ensures !step.SignalAll? ==> Next(s, step).signalled == s.signalled
  {
    assert Next(s, step).signalled == Signalled(s, step);
    hide Next, Enabled;
  }

  lemma DownAfter(s: Sup)
    requires Enabled(s, SetDown)
    ensures Next(s, SetDown).shutdown
  {
  }

  lemma HandlerOrder(init: Sup, steps: seq<Step>) returns (cancel: nat, down: nat, signal: nat)
    requires Init(init) && Valid(init, steps) && Enabled(Exec(init, steps), GraceOver)
    ensures cancel < down < signal < |steps|
    ensures steps[cancel] == CancelAll && steps[down] == SetDown && steps[signal] == SignalAll
    ensures forall m | cancel < m < |steps| && HandlerStep(steps[m]) :: m == down || m == signal
    ensures forall m | signal < m < |steps| :: !steps[m].SignalAll?
  {
    assert init.handler.Listening? && Exec(init, steps).handler.TermSignalled?;
    StateAtEnd(init, steps);
    hide Init, Next, Enabled, HandlerStep;
    signal := LastHandlerStep(init, steps, |steps|);
    HandlerMoves(StateAt(init, steps, signal), steps[signal]);
    down := LastHandlerStep(init, steps, signal);
    HandlerMoves(StateAt(init, steps, down), steps[down]);
    cancel := LastHandlerStep(init, steps, down);
    HandlerMoves(StateAt(init, steps, cancel), steps[cancel]);
  }

  /**
   The handler ends the wrapper. A run in which it has cancelled the context, after a grace period or at once,
   and which has come to where no chain, process or scheduler can move any more, has ended every command or
   exited; if main cannot return either, the wrapper has exited.
   */
  lemma HandlerCompletes(init: Sup, steps: seq<Step>, k: nat)
    requires Init(init) && Valid(init, steps)
    requires k < |steps| && steps[k] in {GraceOver, InterruptCancel}
    requires forall step | Move(step) && !step.MainReturns? :: !Enabled(Exec(init, steps), step)
    ensures Exec(init, steps).shutdown && Exec(init, steps).ctxDone
    ensures AllEnded(Exec(init, steps)) || Exec(init, steps).exited
    ensures !Enabled(Exec(init, steps), MainReturns) ==> Exec(init, steps).exited
  {
    hide Init, Inv, Next, Enabled, Move, Measure;
    var t := Exec(init, steps);
    InitInv(init);
    InvAt(init, steps, k);
    StateNext(init, steps, k);
    CancelsUnderFlag(StateAt(init, steps, k), steps[k]);
    DoneStaysRun(init, steps, k, |steps|);
    StateAtEnd(init, steps);
    FlagsAreHistory(init, steps);
    assert Reaches(init, t);
    assert Reachable(t);
    assert Valid(t, []) && Exec(t, []) == t;
    ShutdownCompletes(t, []);
  }

  lemma CancelsUnderFlag(s: Sup, step: Step)
    requires Inv(s) && Enabled(s, step) && step in {GraceOver, InterruptCancel}
    ensures s.shutdown
  {
    hide Counted, Scheduling, Children, Recorded, Named, CancelsNamed, Routines, PastCancelled, NotDropped;
    hide LeasesInPlace, Leaves;
  }

  // ---------- What becomes of a recorded process ----------

  /** The step records a process under `name`. */
  predicate Registers(s: Sup, step: Step, name: string) {
    step.Register? && step.i < |s.chains| && s.chains[step.i].name == name
  }

  /** Process `pid` has been recorded, and is no more recorded under any name, nor will it be again. */
  ghost predicate Superseded(s: Sup, pid: Pid) {
    && pid in s.spawnedBy && (forall name | name in s.pids :: s.pids[name] != pid)
    && forall i | 0 <= i < |s.chains| :: s.chains[i].phase != Registering(pid)
  }

  lemma LatestStep(s: Sup, step: Step, pid: Pid, name: string)
    requires Inv(s) && Enabled(s, step) && Latest(s, pid, name)
    ensures if Registers(s, step, name) then Superseded(Next(s, step), pid) else Latest(Next(s, step), pid, name)
  {
    PidsAfter(s, step);
    if Registers(s, step, name) {
      SupersededNow(s, step, pid, name);
    }
    hide Next, Enabled, Inv, Superseded;
  }

  lemma SupersededNow(s: Sup, step: Step, pid: Pid, name: string)
    requires Named(s) && Enabled(s, step) && Latest(s, pid, name) && Registers(s, step, name)
    ensures Superseded(Next(s, step), pid)
  {
    var t := Next(s, step);
    SameLength(s, step);
    TableAfter(s, step);
    PidsAfter(s, step);
    hide Next, Enabled;
    assert s.chains[s.spawnedBy[pid]].name == name;
    forall i | 0 <= i < |t.chains| ensures t.chains[i].phase != Registering(pid) {
      RegisteringAfter(s, step, i, pid);
    }
    forall other | other in t.pids ensures t.pids[other] != pid {
      if other in s.pids && other != name {
        assert s.chains[s.spawnedBy[s.pids[other]]].name == other;
      }
    }
  }

  lemma SupersededStep(s: Sup, step: Step, pid: Pid)
    requires Enabled(s, step) && Superseded(s, pid)
    ensures Superseded(Next(s, step), pid)
  {
    var t := Next(s, step);
    PidsAfter(s, step);
    SameLength(s, step);
    TableAfter(s, step);
    hide Next, Enabled;
    forall i | 0 <= i < |t.chains| ensures t.chains[i].phase != Registering(pid) {
      RegisteringAfter(s, step, i, pid);
    }
  }

  lemma {:induction false} SupersededRun(s: Sup, steps: seq<Step>, pid: Pid)
    requires Superseded(s, pid) && Valid(s, steps)
    ensures Superseded(Exec(s, steps), pid)
    decreases |steps|
  {
    hide Next, Enabled, Superseded;
    if steps != [] {
      SupersededStep(s, steps[0], pid);
      SupersededRun(Next(s, steps[0]), steps[1..], pid);
    }
  }

  /** None of the steps records a process under `name`; the names are those of `s`. */
  ghost predicate NoneRegisters(s: Sup, steps: seq<Step>, name: string) {
    forall k | 0 <= k < |steps| :: !Registers(s, steps[k], name)
  }

  lemma {:induction false} LatestRun(s: Sup, steps: seq<Step>, pid: Pid, name: string)
    requires Inv(s) && Valid(s, steps) && Latest(s, pid, name)
    ensures if NoneRegisters(s, steps, name) then Latest(Exec(s, steps), pid, name) else Superseded(Exec(s, steps), pid)
    decreases |steps|
  {
    if steps != [] {
      var next := Next(s, steps[0]);
      InvStep(s, steps[0]);
      LatestStep(s, steps[0], pid, name);
      NoneRegistersNext(s, steps, name);
      hide Inv, Next, Enabled, Superseded, Latest, NoneRegisters, Registers;
      if Registers(s, steps[0], name) {
        SupersededRun(next, steps[1..], pid);
      } else {
        LatestRun(next, steps[1..], pid, name);
      }
    }
  }

  lemma NoneRegistersNext(s: Sup, steps: seq<Step>, name: string)
    requires steps != [] && Enabled(s, steps[0])
    ensures NoneRegisters(s, steps, name) <==>
      !Registers(s, steps[0], name) && NoneRegisters(Next(s, steps[0]), steps[1..], name)
  {
    var t := Next(s, steps[0]);
    SameLength(s, steps[0]);
    hide Next, Enabled;
    forall step ensures Registers(t, step, name) <==> Registers(s, step, name) {
      if step.Register? && step.i < |s.chains| {
        NamesStay(s, steps[0], step.i);
      }
    }
    assert forall k | 0 < k < |steps| :: steps[k] == steps[1..][k - 1];
  }

  /**
   A recorded process, over any run. A process recorded at some moment of a run is sent the signal by a later
   `SignalAll` if and only if no process has been recorded under its name since then,
   by its own chain or by another of the same name (or it was sent one before).
   */
  lemma SignalledExactly(s: Sup, i: nat, steps: seq<Step>)
    requires Reachable(s) && Enabled(s, Register(i)) && Valid(Next(s, Register(i)), steps)
    requires Enabled(Exec(Next(s, Register(i)), steps), SignalAll)
    ensures i < |s.chains| && s.chains[i].phase.Registering?
    ensures var pid, t := s.chains[i].phase.pid, Exec(Next(s, Register(i)), steps);
      pid in Next(t, SignalAll).signalled <==>
      pid in t.signalled || NoneRegisters(s, steps, s.chains[i].name)
  {
    hide Inv, Enabled, Next, NoneRegisters;
    ReachableInv(s);
    InvStep(s, Register(i));
    PidsAfter(s, Register(i));
    var pid, name, next := s.chains[i].phase.pid, s.chains[i].name, Next(s, Register(i));
    assert Latest(next, pid, name);
    SameRegisters(s, Register(i), steps, name);
    LatestRun(next, steps, pid, name);
    var t := Exec(next, steps);
    SignalsRecorded(t);
    assert pid in t.pids.Values <==> exists other :: other in t.pids && t.pids[other] == pid;
  }

  lemma SameRegisters(s: Sup, step: Step, steps: seq<Step>, name: string)
    requires Enabled(s, step)
    ensures NoneRegisters(Next(s, step), steps, name) <==> NoneRegisters(s, steps, name)
  {
    SameLength(s, step);
    var t := Next(s, step);
    hide Next, Enabled;
    forall other: Step ensures Registers(t, other, name) <==> Registers(s, other, name) {
      if other.Register? && other.i < |s.chains| {
        NamesStay(s, step, other.i);
      }
    }
  }

  // ---------- Which configurations it serves ----------

  ghost predicate DistinctNames(s: Sup) {
    forall i, j | 0 <= i < j < |s.chains| :: s.chains[i].name != s.chains[j].name
  }

  /** In every run, the termination signal goes to every child that has been recorded. */
  ghost predicate ReachesRecorded(init: Sup) {
    forall t: Sup, i: nat |
      Reaches(init, t) && Enabled(t, SignalAll) && i < |t.chains| && Registered(t.chains[i].phase) ::
      t.chains[i].phase.pid in Next(t, SignalAll).signalled
  }

  /** In every run, it goes to every process that has been started and not yet been waited for. */
  ghost predicate ReachesEveryChild(init: Sup) {
    forall t: Sup, pid: Pid | Reaches(init, t) && Enabled(t, SignalAll) && pid in t.table ::
      pid in Next(t, SignalAll).signalled
  }

  lemma {:induction false} NamesRun(s: Sup, steps: seq<Step>)
    requires Valid(s, steps) && DistinctNames(s)
    ensures DistinctNames(Exec(s, steps))
    decreases |steps|
  {
    if steps != [] {
      var t := Next(s, steps[0]);
      SameLength(s, steps[0]);
      hide Next, Enabled;
      forall i | 0 <= i < |s.chains| ensures t.chains[i].name == s.chains[i].name {
        NamesStay(s, steps[0], i);
      }
      NamesRun(t, steps[1..]);
    }
  }

  lemma DistinctReaches(init: Sup, t: Sup, i: nat)
    requires Init(init) && DistinctNames(init) && Reaches(init, t) && Enabled(t, SignalAll)
    requires i < |t.chains| && Registered(t.chains[i].phase)
    ensures t.chains[i].phase.pid in Next(t, SignalAll).signalled
  {
    hide Inv, Init, Enabled, Next, Latest, LatestArmed;
    var steps :| Valid(init, steps) && Exec(init, steps) == t;
    assert Reachable(t);
    ReachableInv(t);
    NamesRun(init, steps);
    assert !Shadowed(t, i);
    AloneIsLatest(t, i);
    ReachedExactly(t, t.chains[i].phase.pid);
  }

  /** Two commands of one name: with both running, the first is passed over. */
  lemma ClashIsPassedOver(init: Sup, i: nat, j: nat) returns (t: Sup)
    requires Init(init) && i < j < |init.chains| && init.chains[i].name == init.chains[j].name
    ensures Reaches(init, t) && Enabled(t, SignalAll) && i < |t.chains| && Registered(t.chains[i].phase)
    ensures t.chains[i].phase.pid !in Next(t, SignalAll).signalled
  {
    hide Reaches, Next, Enabled, Inv, Init, StagedChains, StagedPids;
    var up := BringUp(init, j + 1);
    assert Reachable(up);
    ReachableInv(up);
    PassedOver(init, up, i, j);
    t := TerminateUpToSignal(init, up);
    SignalsRecorded(t);
  }

  lemma PassedOver(init: Sup, s: Sup, i: nat, j: nat)
    requires Inv(s) && Staged(init, s, j + 1, 0) && i < j && init.chains[i].name == init.chains[j].name
    ensures s.chains[i].phase == Running(i) && i !in s.pids.Values
  {
    assert s.pids[s.chains[j].name] == j;
    forall name | name in s.pids ensures s.pids[name] != i {
      assert s.chains[s.spawnedBy[s.pids[name]]].name == name;
    }
    hide Inv;
  }

  /**
   A command alone, whatever its name: with its process started and not yet recorded, the signal passes the
   process over.
   */
  lemma UnrecordedIsPassedOver(init: Sup) returns (t: Sup)
    requires Init(init) && init.chains != []
    ensures Reaches(init, t) && Enabled(t, SignalAll)
    ensures 0 in t.table && t.table[0].alive && t.chains != [] && t.chains[0].phase == Registering(0)
    ensures 0 !in Next(t, SignalAll).signalled
  {
    hide Reaches, Next, Enabled;
    ReachesSelf(init);
    var ready := LaunchOne(init, init, 0);
    StartedStep(ready, 0, 0);
    ReachesStep(init, ready, Started(0, 0));
    hide Init;
    t := TerminateUpToSignal(init, Next(ready, Started(0, 0)));
    SignalsRecorded(t);
  }

  lemma TerminateUpToSignal(init: Sup, s: Sup) returns (t: Sup)
    requires Reaches(init, s) && !s.exited && s.wg >= 0 && s.handler.Listening?
    ensures Reaches(init, t) && Enabled(t, SignalAll)
    ensures t.chains == s.chains && t.table == s.table && t.pids == s.pids && t.signalled == s.signalled
  {
    hide Reaches, Next, Enabled;
    TerminateStep(s);
    ReachesStep(init, s, Terminate);
    CancelAllStep(Next(s, Terminate));
    ReachesStep(init, Next(s, Terminate), CancelAll);
    SetDownStep(Next(Next(s, Terminate), CancelAll));
    ReachesStep(init, Next(Next(s, Terminate), CancelAll), SetDown);
    t := Next(Next(Next(s, Terminate), CancelAll), SetDown);
    SignalAllEnabled(t);
  }

  lemma TerminateStep(s: Sup)
    requires !s.exited && s.wg >= 0 && s.handler.Listening?
    ensures Enabled(s, Terminate) && Next(s, Terminate) == s.(handler := Terminating)
  {
  }

  lemma CancelAllStep(s: Sup)
    requires !s.exited && s.wg >= 0 && s.handler.Terminating?
    ensures Enabled(s, CancelAll)
    ensures Next(s, CancelAll) == s.(handler := TermCancelled, cancelled := s.cancelled + s.cancels.Values)
  {
  }

  lemma SetDownStep(s: Sup)
    requires !s.exited && s.wg >= 0 && s.handler.TermCancelled?
    ensures Enabled(s, SetDown) && Next(s, SetDown) == s.(handler := TermDown, shutdown := true)
  {
  }

  lemma SignalAllEnabled(s: Sup)
    requires !s.exited && s.handler.TermDown?
    ensures Enabled(s, SignalAll)
  {
  }

  /** The signal reaches every recorded child, in every run, if and only if no two chains have the same name. */
  lemma ReachesRecordedExactly(init: Sup)
    requires Init(init)
    ensures ReachesRecorded(init) <==> DistinctNames(init)
  {
    hide Init, Reaches, Enabled, Next;
    if DistinctNames(init) {
      forall t: Sup, i: nat |
        Reaches(init, t) && Enabled(t, SignalAll) && i < |t.chains| && Registered(t.chains[i].phase)
        ensures t.chains[i].phase.pid in Next(t, SignalAll).signalled
      {
        DistinctReaches(init, t, i);
      }
    } else {
      var i, j :| 0 <= i < j < |init.chains| && init.chains[i].name == init.chains[j].name;
      var t := ClashIsPassedOver(init, i, j);
    }
  }

  lemma {:induction false} LengthRun(s: Sup, steps: seq<Step>)
    requires Valid(s, steps)
    ensures |Exec(s, steps).chains| == |s.chains|
    decreases |steps|
  {
    hide Next, Enabled;
    if steps != [] {
      SameLength(s, steps[0]);
      LengthRun(Next(s, steps[0]), steps[1..]);
    }
  }

  /**
   But it reaches every child in every run for no configuration at all, the empty one aside, because a process
   may not have been recorded yet.
   */
  lemma ReachesEveryChildOnlyOfNone(init: Sup)
    requires Init(init)
    ensures ReachesEveryChild(init) <==> init.chains == []
  {
    hide Init, Enabled, Next;
    if init.chains == [] {
      forall t: Sup | Reaches(init, t) ensures NoChildren(t) {
        var steps :| Valid(init, steps) && Exec(init, steps) == t;
        LengthRun(init, steps);
        assert Reachable(t);
        NoChainsNoChildren(t);
      }
    } else {
      var t := UnrecordedIsPassedOver(init);
    }
  }

  lemma NoChainsNoChildren(t: Sup)
    requires Reachable(t)
    ensures t.chains == [] ==> NoChildren(t)
  {
    ReachableInv(t);
    EndedHasNoChildren(t);
  }

  /** The supervisor is started on the runs that the scheduler makes of a configuration. */
  ghost predicate StartedOn(init: Sup, commands: seq<Schedule.Command>) {
    var runs := Schedule.AllRuns(commands);
    Init(init) && |init.chains| == |runs| && forall i | 0 <= i < |runs| :: init.chains[i].name == runs[i].name
  }

  /**
   For the configuration: every recorded child is signalled, in every run, if and only if every two commands
   scheduled are compatible. Distinct names in the configuration are not enough.
   */
  lemma ReachesRecordedOf(init: Sup, commands: seq<Schedule.Command>)
    requires StartedOn(init, commands)
    ensures ReachesRecorded(init) <==> Schedule.AllCompatible(commands)
  {
    Schedule.NamesDistinct(commands);
    ReachesRecordedExactly(init);
    hide ReachesRecorded, Init, Schedule.AllCompatible, Schedule.AllRuns;
  }

  /** A replicated "a" and a plain "a_0", of different names in the configuration, already clash. */
  lemma DistinctNamesNotEnough(init: Sup, dir: string, hook: bool)
    requires StartedOn(init, [Schedule.Command("a", 1, dir, hook), Schedule.Command("a_0", 0, dir, hook)])
    ensures !ReachesRecorded(init)
  {
    Schedule.DistinctNamesMayClash(dir, hook);
    var commands := [Schedule.Command("a", 1, dir, hook), Schedule.Command("a_0", 0, dir, hook)];
    Schedule.NamesDistinct(commands);
    ReachesRecordedOf(init, commands);
    hide ReachesRecorded, StartedOn, Schedule.AllCompatible, Schedule.AllRuns, Schedule.Distinct;
  }
}
