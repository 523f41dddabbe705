/**
 The process supervisor as a state machine: the scheduler, one chain of `Run` frames per command, the
 health and memory routines of every process started, the signal handler, and main waiting on the
 WaitGroup.

 Every lock-protected read or write of the shared state is a step of its own, so anything can happen
 between the five reads that follow a child's exit. A restart is a deferred call inside the frame that
 restarts, so a chain is a stack of `depth` frames that unwind one by one at the end, each with its own
 `wg.Done`.

 The shared maps are keyed by the names of the chains, and two chains may have the same name.

 Assumed of the system: a pid is not reused, and a command whose context is done refuses to start.
 */
module Supervisor {
  import opened Wrappers

  type Pid = int
  type LeaseId = int

  /**
   Where the top frame of a chain stands. The `Reading` phases are the reads after the child's exit.
   `Cancelling` is about to cancel the routines of the frame's own process, before its end or a restart.
   */
  datatype Phase =
    | NotScheduled
    | Preparing
    | Acquiring
    | Starting
    | Registering(pid: Pid)
    | Arming(pid: Pid)
    | Running(pid: Pid)
    | ReadingKilled
    | ReadingShutdown
    | ReadingShutdownAgain
    | ReadingKilledAgain
    | Clearing
    | Cancelling(ending: bool)
    | ReadingShutdownLast
    | Adding
    | Ending
    | Ended

  /** One process start: its pid, the frame that made it (counted from 1), and the lease that frame acquired. */
  datatype Start = Start(pid: Pid, frame: nat, lease: Option<LeaseId>)

  /**
   `frames` counts all frames the chain ever opened, `depth` those still on the stack. `routines` are the
   pids whose routines have been spawned.
   */
  datatype Chain = Chain(
    name: string, locked: bool, phase: Phase, depth: nat, frames: nat, lease: Option<LeaseId>,
    starts: seq<Start>, routines: set<Pid>)

  datatype Process = Process(owner: nat, alive: bool)

  /** Which frame of which chain a lease was issued to. */
  datatype Origin = Origin(chain: nat, frame: nat)

  datatype Handler = Listening | Terminating | TermCancelled | TermDown | TermSignalled | IntDown

  /**
   `killed`, `pids` and `cancels` are the maps by name: the marked names, the pid last recorded, and the
   process whose routines `CancelRoutines` would cancel. `cancelled` are the processes whose routines have
   been cancelled, `signalled` those sent a termination signal. `table` holds the processes not yet waited for.
   */
  datatype Sup = Sup(
    shutdown: bool, ctxDone: bool, podDone: bool, exited: bool, handler: Handler,
    wg: int, mainAdded: bool, schedulerDone: bool, scheduled: nat, chains: seq<Chain>,
    table: map<Pid, Process>, spawnedBy: map<Pid, nat>, origins: map<LeaseId, Origin>,
    killed: set<string>, pids: map<string, Pid>, cancels: map<string, Pid>,
    cancelled: set<Pid>, signalled: set<Pid>)

  datatype Step =
    | MainAdd | Schedule | SchedulerDone | MainReturns
    | Prepare(i: nat) | SkipLock(i: nat)
    | Acquired(i: nat, lease: LeaseId) | AcquireRetry(i: nat) | AcquireCancelled(i: nat)
    | Started(i: nat, pid: Pid) | StartFailed(i: nat) | Register(i: nat) | Arm(i: nat)
    | Dies(pid: Pid) | Reap(i: nat)
    | ReadKilled(i: nat) | ReadShutdown(i: nat) | ReadShutdownAgain(i: nat) | ReadKilledAgain(i: nat)
    | Clear(i: nat) | CancelOwn(i: nat) | ReadShutdownLast(i: nat) | AddFrame(i: nat) | Unwind(i: nat)
    | Mark(i: nat) | Kill(i: nat, pid: Pid)
    | Terminate | CancelAll | SetDown | SignalAll | GraceOver | Interrupt | InterruptCancel | PodCancel

  predicate At(s: Sup, i: nat, phase: Phase) {
    i < |s.chains| && s.chains[i].phase == phase
  }

  /** The chain a step moves, if it moves one. */
  function Mover(s: Sup, step: Step): Option<nat> {
    match step
    case Schedule => Some(s.scheduled)
    case Prepare(i) => Some(i)
    case SkipLock(i) => Some(i)
    case Acquired(i, _) => Some(i)
    case AcquireCancelled(i) => Some(i)
    case Started(i, _) => Some(i)
    case Register(i) => Some(i)
    case Arm(i) => Some(i)
    case Reap(i) => Some(i)
    case ReadKilled(i) => Some(i)
    case ReadShutdown(i) => Some(i)
    case ReadShutdownAgain(i) => Some(i)
    case ReadKilledAgain(i) => Some(i)
    case Clear(i) => Some(i)
    case CancelOwn(i) => Some(i)
    case ReadShutdownLast(i) => Some(i)
    case AddFrame(i) => Some(i)
    case Unwind(i) => Some(i)
    case _ => None
  }

  /** The phase a chain must be in for a step to move it. */
  predicate Leaves(phase: Phase, step: Step) {
    match step
    case Schedule => phase.NotScheduled?
    case Prepare(_) => phase.Preparing?
    case SkipLock(_) => phase.Acquiring?
    case Acquired(_, _) => phase.Acquiring?
    case AcquireCancelled(_) => phase.Acquiring?
    case Started(_, _) => phase.Starting?
    case Register(_) => phase.Registering?
    case Arm(_) => phase.Arming?
    case Reap(_) => phase.Running?
    case ReadKilled(_) => phase.ReadingKilled?
    case ReadShutdown(_) => phase.ReadingShutdown?
    case ReadShutdownAgain(_) => phase.ReadingShutdownAgain?
    case ReadKilledAgain(_) => phase.ReadingKilledAgain?
    case Clear(_) => phase.Clearing?
    case CancelOwn(_) => phase.Cancelling?
    case ReadShutdownLast(_) => phase.ReadingShutdownLast?
    case AddFrame(_) => phase.Adding?
    case Unwind(_) => phase.Ending?
    case _ => false
  }

  /** What else a step needs. */
  predicate Guard(s: Sup, step: Step)
    requires Mover(s, step).Some? ==>
      Mover(s, step).value < |s.chains| && Leaves(s.chains[Mover(s, step).value].phase, step)
  {
    match step
    case MainAdd => !s.mainAdded
    case Schedule => !s.schedulerDone
    case SchedulerDone => s.scheduled == |s.chains| && !s.schedulerDone
    case MainReturns => s.mainAdded && s.wg == 0
    case SkipLock(i) => !s.chains[i].locked
    case Acquired(i, l) => s.chains[i].locked && l !in s.origins
    case AcquireRetry(i) => At(s, i, Acquiring) && s.chains[i].locked
    case AcquireCancelled(i) => s.chains[i].locked && s.ctxDone
    case Started(i, pid) => !s.ctxDone && pid !in s.spawnedBy
    case StartFailed(i) => At(s, i, Starting)
    case Dies(pid) => pid in s.table && s.table[pid].alive
    case Reap(i) => s.chains[i].phase.pid in s.table && !s.table[s.chains[i].phase.pid].alive
    case Mark(i) => i < |s.chains| && s.chains[i].routines != {}
    case Kill(i, pid) => i < |s.chains| && pid in s.chains[i].routines
    case Terminate => s.handler.Listening?
    case CancelAll => s.handler.Terminating?
    case SetDown => s.handler.TermCancelled?
    case SignalAll => s.handler.TermDown?
    case GraceOver => s.handler.TermSignalled?
    case Interrupt => s.handler.Listening?
    case InterruptCancel => s.handler.IntDown?
    case _ => true
  }

  predicate Enabled(s: Sup, step: Step) {
    && !s.exited
    && (Mover(s, step).Some? ==>
          Mover(s, step).value < |s.chains| && Leaves(s.chains[Mover(s, step).value].phase, step))
    && Guard(s, step)
  }

  function NewFrame(c: Chain): Chain {
    c.(phase := Preparing, depth := c.depth + 1, frames := c.frames + 1)
  }

  /** What the moving chain becomes, for the flag and the mark it finds. */
  function Moved(shutdown: bool, killed: bool, c: Chain, step: Step): Chain
    requires Leaves(c.phase, step)
  {
    match step
    case Schedule => NewFrame(c)
    case Prepare(_) => c.(phase := Acquiring, lease := None)
    case SkipLock(_) => c.(phase := Starting)
    case Acquired(_, l) => c.(phase := Starting, lease := Some(l))
    case AcquireCancelled(_) => c.(phase := Starting)
    case Started(_, pid) => c.(phase := Registering(pid), starts := c.starts + [Start(pid, c.frames, c.lease)])
    case Register(_) => c.(phase := Arming(c.phase.pid))
    case Arm(_) => c.(phase := Running(c.phase.pid), routines := c.routines + {c.phase.pid})
    case Reap(_) => c.(phase := ReadingKilled)
    case ReadKilled(_) => c.(phase := if killed then ReadingShutdownAgain else ReadingShutdown)
    case ReadShutdown(_) => c.(phase := if shutdown then Cancelling(true) else ReadingShutdownAgain)
    case ReadShutdownAgain(_) => c.(phase := if shutdown then ReadingKilledAgain else Clearing)
    case ReadKilledAgain(_) => c.(phase := if killed then Clearing else Ending)
    case Clear(_) => c.(phase := Cancelling(false))
    case CancelOwn(_) => c.(phase := if c.phase.ending then Ending else ReadingShutdownLast)
    case ReadShutdownLast(_) => c.(phase := if shutdown then Ending else Adding)
    case AddFrame(_) => NewFrame(c)
    case Unwind(_) => if c.depth > 1 then c.(depth := c.depth - 1) else c.(depth := 0, phase := Ended)
  }

  function MovedIn(s: Sup, i: nat, step: Step): Chain
    requires i < |s.chains| && Leaves(s.chains[i].phase, step)
  {
    Moved(s.shutdown, s.chains[i].name in s.killed, s.chains[i], step)
  }

  function Dead(table: map<Pid, Process>, pid: Pid): map<Pid, Process> {
    if pid in table then table[pid := table[pid].(alive := false)] else table
  }

  /** What happens to the processes not yet waited for. */
  function Table(s: Sup, step: Step): map<Pid, Process>
    requires Enabled(s, step)
  {
    match step
    case Started(i, pid) => s.table[pid := Process(i, true)]
    case Dies(pid) => Dead(s.table, pid)
    case Kill(_, pid) => Dead(s.table, pid)
    case Reap(i) => s.table - {s.chains[i].phase.pid}
    case _ => s.table
  }

  function SpawnedBy(s: Sup, step: Step): map<Pid, nat> {
    if step.Started? then s.spawnedBy[step.pid := step.i] else s.spawnedBy
  }

  function Origins(s: Sup, step: Step): map<LeaseId, Origin>
    requires Enabled(s, step)
  {
    if step.Acquired? then s.origins[step.lease := Origin(step.i, s.chains[step.i].frames)] else s.origins
  }

  function KilledNames(s: Sup, step: Step): set<string>
    requires Enabled(s, step)
  {
    match step
    case Mark(i) => s.killed + {s.chains[i].name}
    case Clear(i) => s.killed - {s.chains[i].name}
    case _ => s.killed
  }

  function Pids(s: Sup, step: Step): map<string, Pid>
    requires Enabled(s, step)
  {
    if step.Register? then s.pids[s.chains[step.i].name := s.chains[step.i].phase.pid] else s.pids
  }

  function Cancels(s: Sup, step: Step): map<string, Pid>
    requires Enabled(s, step)
  {
    if step.Arm? then s.cancels[s.chains[step.i].name := s.chains[step.i].phase.pid] else s.cancels
  }

  /** The process the top frame started last. */
  function OwnPid(c: Chain): set<Pid> {
    if c.starts == [] then {} else {c.starts[|c.starts| - 1].pid}
  }

  function Cancelled(s: Sup, step: Step): set<Pid>
    requires Enabled(s, step)
  {
    match step
    case CancelOwn(i) => s.cancelled + OwnPid(s.chains[i])
    case CancelAll => s.cancelled + s.cancels.Values
    case _ => s.cancelled
  }

  function Signalled(s: Sup, step: Step): set<Pid> {
    if step.SignalAll? then s.signalled + s.pids.Values else s.signalled
  }

  /** What a step adds to the WaitGroup counter. */
  function Tokens(step: Step): int {
    match step
    case MainAdd => 1
    case Schedule => 1
    case AddFrame(_) => 1
    case SchedulerDone => -1
    case Unwind(_) => -1
    case _ => 0
  }

  function HandlerAfter(handler: Handler, step: Step): Handler {
    match step
    case Terminate => Terminating
    case CancelAll => TermCancelled
    case SetDown => TermDown
    case SignalAll => TermSignalled
    case GraceOver => Listening
    case Interrupt => IntDown
    case InterruptCancel => Listening
    case _ => handler
  }

  function Chains(s: Sup, step: Step): seq<Chain>
    requires Enabled(s, step)
  {
    match Mover(s, step)
    case None => s.chains
    case Some(i) => s.chains[i := MovedIn(s, i, step)]
  }

  /**
   The state after a step, field by field. The wrapper ends when main returns, when a process fails to start
   (a fatal error), and when the counter falls below zero (a panic).
   */
  function Next(s: Sup, step: Step): Sup
    requires Enabled(s, step)
  {
    Sup(
      shutdown := s.shutdown || step.SetDown? || step.Interrupt?,
      ctxDone := s.ctxDone || step.GraceOver? || step.InterruptCancel? || step.PodCancel?,
      podDone := s.podDone || step.PodCancel?,
      exited := s.exited || step.MainReturns? || step.StartFailed? || s.wg + Tokens(step) < 0,
      handler := HandlerAfter(s.handler, step),
      wg := s.wg + Tokens(step),
      mainAdded := s.mainAdded || step.MainAdd?,
      schedulerDone := s.schedulerDone || step.SchedulerDone?,
      scheduled := if step.Schedule? then s.scheduled + 1 else s.scheduled,
      chains := Chains(s, step),
      table := Table(s, step),
      spawnedBy := SpawnedBy(s, step),
      origins := Origins(s, step),
      killed := KilledNames(s, step),
      pids := Pids(s, step),
      cancels := Cancels(s, step),
      cancelled := Cancelled(s, step),
      signalled := Signalled(s, step))
  }

  ghost predicate Init(s: Sup) {
    && !s.shutdown && !s.ctxDone && !s.podDone && !s.exited && s.handler.Listening?
    && s.wg == 0 && !s.mainAdded && !s.schedulerDone && s.scheduled == 0
    && s.table == map[] && s.spawnedBy == map[] && s.origins == map[]
    && s.killed == {} && s.pids == map[] && s.cancels == map[] && s.cancelled == {} && s.signalled == {}
    && forall i | 0 <= i < |s.chains| ::
         s.chains[i] == Chain(s.chains[i].name, s.chains[i].locked, NotScheduled, 0, 0, None, [], {})
  }

  ghost predicate Valid(s: Sup, steps: seq<Step>)
    decreases |steps|
  {
    steps == [] || (Enabled(s, steps[0]) && Valid(Next(s, steps[0]), steps[1..]))
  }

  ghost function Exec(s: Sup, steps: seq<Step>): Sup
    requires Valid(s, steps)
    decreases |steps|
  {
    if steps == [] then s else Exec(Next(s, steps[0]), steps[1..])
  }

  lemma {:induction false} ExecConcat(s: Sup, xs: seq<Step>, ys: seq<Step>)
    requires Valid(s, xs) && Valid(Exec(s, xs), ys)
    ensures Valid(s, xs + ys) && Exec(s, xs + ys) == Exec(Exec(s, xs), ys)
    decreases |xs|
  {
    hide Next, Enabled;
    if xs == [] {
      assert xs + ys == ys;
    } else {
      ExecConcat(Next(s, xs[0]), xs[1..], ys);
      assert (xs + ys)[1..] == xs[1..] + ys;
    }
  }

  lemma ExecOne(s: Sup, step: Step)
    requires Enabled(s, step)
    ensures Valid(s, [step]) && Exec(s, [step]) == Next(s, step)
  {
    hide Next, Enabled;
    assert [step][1..] == [] && Valid(Next(s, step), []) && Exec(Next(s, step), []) == Next(s, step);
  }

  // ---------- Sums over the chains ----------

  function Sum(f: Chain -> nat, chains: seq<Chain>): nat {
    if chains == [] then 0 else Sum(f, chains[..|chains| - 1]) + f(chains[|chains| - 1])
  }

  lemma {:induction false} SumUpdate(f: Chain -> nat, chains: seq<Chain>, i: nat, c: Chain)
    requires i < |chains|
    ensures Sum(f, chains[i := c]) == Sum(f, chains) - f(chains[i]) + f(c)
  {
    var n := |chains| - 1;
    if i == n {
      assert chains[i := c][..n] == chains[..n];
    } else {
      assert chains[i := c][..n] == chains[..n][i := c];
      SumUpdate(f, chains[..n], i, c);
    }
  }

  lemma {:induction false} SumZero(f: Chain -> nat, chains: seq<Chain>)
    ensures Sum(f, chains) == 0 <==> forall i | 0 <= i < |chains| :: f(chains[i]) == 0
  {
    if chains != [] {
      SumZero(f, chains[..|chains| - 1]);
      assert forall i | 0 <= i < |chains| - 1 :: chains[..|chains| - 1][i] == chains[i];
    }
  }

  function Depth(c: Chain): nat {
    c.depth
  }

  // ---------- The invariant ----------

  function Token(b: bool): int {
    if b then 1 else 0
  }

  ghost predicate Counted(s: Sup) {
    s.wg == Token(s.mainAdded) - Token(s.schedulerDone) + Sum(Depth, s.chains) && (s.wg < 0 ==> s.exited)
  }

  ghost predicate Scheduling(s: Sup) {
    && s.scheduled <= |s.chains|
    && (s.schedulerDone ==> s.scheduled == |s.chains|)
    && (forall i | 0 <= i < |s.chains| :: s.chains[i].phase.NotScheduled? <==> s.scheduled <= i)
    && (forall i | 0 <= i < |s.chains| ::
          s.chains[i].depth == 0 <==> s.chains[i].phase.NotScheduled? || s.chains[i].phase.Ended?)
  }

  /** The chain's child is not yet waited for. */
  predicate HasChild(phase: Phase) {
    phase.Registering? || phase.Arming? || phase.Running?
  }

  /**
   Every frame opened is on the stack until the chain unwinds, and every frame has started one process, but
   for the top one on its way to do so.
   */
  ghost predicate Stacked(s: Sup) {
    forall i | 0 <= i < |s.chains| :: StackedChain(s.chains[i])
  }

  predicate StackedChain(c: Chain) {
    && (!c.phase.Ending? && !c.phase.Ended? ==> c.depth == c.frames)
    && |c.starts| + (if BeforeStart(c.phase) then 1 else 0) == c.frames
  }

  /** The process table holds exactly the children of the chains that wait for one, one each. */
  ghost predicate Children(s: Sup) {
    && (forall pid | pid in s.table ::
          && s.table[pid].owner < |s.chains| && HasChild(s.chains[s.table[pid].owner].phase)
          && s.chains[s.table[pid].owner].phase.pid == pid
          && pid in s.spawnedBy && s.spawnedBy[pid] == s.table[pid].owner)
    && (forall i | 0 <= i < |s.chains| && HasChild(s.chains[i].phase) ::
          s.chains[i].phase.pid in s.table && s.table[s.chains[i].phase.pid].owner == i)
  }

  /** Some other chain has the name of chain `i`. */
  ghost predicate Shadowed(s: Sup, i: nat)
    requires i < |s.chains|
  {
    exists j :: 0 <= j < |s.chains| && j != i && s.chains[j].name == s.chains[i].name
  }

  /** A running child is the one recorded under its name, and the one to cancel, unless the name is shared. */
  ghost predicate Recorded(s: Sup) {
    forall i | 0 <= i < |s.chains| && !Shadowed(s, i) ::
      var c := s.chains[i];
      && (c.phase.Arming? || c.phase.Running? ==> c.name in s.pids && s.pids[c.name] == c.phase.pid)
      && (c.phase.Running? ==> c.name in s.cancels && s.cancels[c.name] == c.phase.pid)
  }

  /** The pid recorded under a name belongs to a chain of that name, and is recorded once. */
  ghost predicate Named(s: Sup) {
    forall name | name in s.pids ::
      && s.pids[name] in s.spawnedBy && s.spawnedBy[s.pids[name]] < |s.chains|
      && s.chains[s.spawnedBy[s.pids[name]]].name == name
      && forall i | 0 <= i < |s.chains| :: s.chains[i].phase != Registering(s.pids[name])
  }

  /** The process whose routines would be cancelled under a name belongs to a chain of that name. */
  ghost predicate CancelsNamed(s: Sup) {
    forall name | name in s.cancels ::
      && s.cancels[name] in s.spawnedBy && s.spawnedBy[s.cancels[name]] < |s.chains|
      && s.chains[s.spawnedBy[s.cancels[name]]].name == name
  }

  ghost predicate Routines(s: Sup) {
    forall i | 0 <= i < |s.chains| ::
      && (forall pid | pid in s.chains[i].routines :: pid in s.spawnedBy && s.spawnedBy[pid] == i)
      && (s.chains[i].phase.Running? ==> s.chains[i].phase.pid in s.chains[i].routines)
  }

  /** The examination of an exit, up to the decision whether to restart. */
  predicate Examining(phase: Phase) {
    || phase.ReadingKilled? || phase.ReadingShutdown? || phase.ReadingShutdownAgain? || phase.ReadingKilledAgain?
    || phase.Clearing? || phase.Cancelling? || phase.ReadingShutdownLast?
  }

  /** The frame has not started its process yet. */
  predicate BeforeStart(phase: Phase) {
    phase.Preparing? || phase.Acquiring? || phase.Starting?
  }

  /** Once past `Cancelling`, and until the next start, no process of the chain has routines left running. */
  predicate RoutinesGone(phase: Phase) {
    phase.NotScheduled? || phase.ReadingShutdownLast? || phase.Adding? || BeforeStart(phase)
  }

  /** Routines of a process are cancelled before the next process of its chain is started. */
  ghost predicate PastCancelled(s: Sup) {
    forall i, a | 0 <= i < |s.chains| && 0 <= a < |s.chains[i].starts| ::
      (a + 1 < |s.chains[i].starts| || RoutinesGone(s.chains[i].phase) ==> s.chains[i].starts[a].pid in s.cancelled)
  }

  /** The chain can only be on its way out because the flag is set. */
  predicate Leaving(phase: Phase) {
    phase.Ending? || phase.Ended? || phase.ReadingKilledAgain? || phase == Cancelling(true)
  }

  ghost predicate NotDropped(s: Sup) {
    forall i | 0 <= i < |s.chains| :: (Leaving(s.chains[i].phase) ==> s.shutdown)
  }

  ghost predicate LeasesInPlace(s: Sup) {
    forall i | 0 <= i < |s.chains| ::
      FrameInPlace(s, i) && forall a | 0 <= a < |s.chains[i].starts| :: StartInPlace(s, i, s.chains[i], a)
  }

  /** A frame about to start a locked process holds a lease issued to it, or the context is done. */
  ghost predicate FrameInPlace(s: Sup, i: nat)
    requires i < |s.chains|
  {
    var c := s.chains[i];
    && (c.phase.Starting? && c.locked && c.lease.None? ==> s.ctxDone)
    && (c.phase.Acquiring? ==> c.lease.None?)
    && (c.phase.Starting? && c.lease.Some? ==>
          c.lease.value in s.origins && s.origins[c.lease.value] == Origin(i, c.frames))
  }

  /** A start carries a lease issued to its own frame, and frames are opened one after the other. */
  ghost predicate StartInPlace(s: Sup, i: nat, c: Chain, a: nat)
    requires a < |c.starts|
  {
    && (c.locked ==> c.starts[a].lease.Some?)
    && (c.starts[a].lease.Some? ==>
          c.starts[a].lease.value in s.origins && s.origins[c.starts[a].lease.value] == Origin(i, c.starts[a].frame))
    && c.starts[a].frame <= c.frames && (BeforeStart(c.phase) ==> c.starts[a].frame < c.frames)
    && (a + 1 < |c.starts| ==> c.starts[a].frame < c.starts[a + 1].frame)
  }

  ghost predicate CancelExplained(s: Sup) {
    && (s.ctxDone ==> s.shutdown || s.podDone)
    && (s.handler.TermDown? || s.handler.TermSignalled? || s.handler.IntDown? ==> s.shutdown)
  }

  ghost predicate Inv(s: Sup) {
    && Counted(s)
    && Scheduling(s)
    && Stacked(s)
    && Children(s)
    && Recorded(s)
    && Named(s)
    && CancelsNamed(s)
    && Routines(s)
    && PastCancelled(s)
    && NotDropped(s)
    && LeasesInPlace(s)
    && CancelExplained(s)
  }

  lemma InitInv(s: Sup)
    requires Init(s)
    ensures Inv(s)
  {
    SumZero(Depth, s.chains);
  }

  // ---------- What one step does to the chain it moves ----------

  /** A step that moves a chain finds it there, in the phase the step leaves. */
  lemma MoverLeaves(s: Sup, step: Step)
    requires Enabled(s, step) && Mover(s, step).Some?
    ensures Mover(s, step).value < |s.chains| && Leaves(s.chains[Mover(s, step).value].phase, step)
  {
    hide Guard, Leaves, Mover;
  }

  /** A step changes at most its own chain. */
  lemma OthersStay(s: Sup, step: Step, j: nat)
    requires Enabled(s, step) && j < |s.chains|
    ensures |Next(s, step).chains| == |s.chains|
    ensures Mover(s, step) == Some(j) ==>
      Leaves(s.chains[j].phase, step) && Next(s, step).chains[j] == MovedIn(s, j, step)
    ensures Mover(s, step) != Some(j) ==> Next(s, step).chains[j] == s.chains[j]
  {
    hide Guard, Leaves, Mover, Table, SpawnedBy, Origins, KilledNames, Pids, Cancels, Cancelled, Signalled, Moved;
  }

  /** Moving a chain keeps its name and its lock, and changes its depth by what the step adds to the counter. */
  lemma MovedKeeps(shutdown: bool, killed: bool, c: Chain, step: Step)
    requires Leaves(c.phase, step)
    ensures var d := Moved(shutdown, killed, c, step); d.name == c.name && d.locked == c.locked
  {
  }

  lemma MovedDepth(shutdown: bool, killed: bool, c: Chain, step: Step)
    requires Leaves(c.phase, step) && (c.depth == 0 <==> c.phase.NotScheduled? || c.phase.Ended?)
    ensures var d := Moved(shutdown, killed, c, step);
      && d.depth == c.depth + Tokens(step)
      && !d.phase.NotScheduled? && (c.phase.NotScheduled? <==> step.Schedule?)
      && (d.depth == 0 <==> d.phase.Ended?)
  {
  }

  /** A child appears when it is started and goes when it is waited for. */
  lemma MovedChild(shutdown: bool, killed: bool, c: Chain, step: Step)
    requires Leaves(c.phase, step)
    ensures var d := Moved(shutdown, killed, c, step);
      if step.Started? then !HasChild(c.phase) && d.phase == Registering(step.pid)
      else if step.Reap? then c.phase.Running? && !HasChild(d.phase)
      else (HasChild(c.phase) <==> HasChild(d.phase)) && (HasChild(c.phase) ==> d.phase.pid == c.phase.pid)
  {
  }

  /** A child is recorded, and its routines are spawned, in two steps of its own. */
  lemma MovedRecords(shutdown: bool, killed: bool, c: Chain, step: Step)
    requires Leaves(c.phase, step)
    ensures var d := Moved(shutdown, killed, c, step);
      && (d.phase.Arming? ==> step.Register? && c.phase.Registering? && d.phase.pid == c.phase.pid)
      && (d.phase.Running? ==> step.Arm? && c.phase.Arming? && d.phase.pid == c.phase.pid)
      && (step.Arm? ==> c.phase.Arming?)
      && d.routines == c.routines + if step.Arm? then {c.phase.pid} else {}
  {
  }

  lemma MovedStarts(shutdown: bool, killed: bool, c: Chain, step: Step)
    requires Leaves(c.phase, step)
    ensures var d := Moved(shutdown, killed, c, step);
      if step.Started?
      then
        d.starts == c.starts + [Start(step.pid, c.frames, c.lease)] && RoutinesGone(c.phase) && !RoutinesGone(d.phase)
      else d.starts == c.starts && (RoutinesGone(d.phase) ==> step.CancelOwn? || RoutinesGone(c.phase))
  {
  }

  lemma MovedLeaves(shutdown: bool, killed: bool, c: Chain, step: Step)
    requires Leaves(c.phase, step)
    ensures Leaving(Moved(shutdown, killed, c, step).phase) ==> shutdown || Leaving(c.phase)
  {
  }

  /** Where a frame's lease comes from, and how frames are counted. */
  lemma MovedLease(shutdown: bool, killed: bool, c: Chain, step: Step)
    requires Leaves(c.phase, step)
    ensures var d := Moved(shutdown, killed, c, step);
      && (d.phase.Acquiring? ==> d.lease.None?)
      && (d.phase.Starting? ==>
            && c.phase.Acquiring? && d.frames == c.frames
            && match step
               case Acquired(_, l) => d.lease == Some(l)
               case _ => d.lease == c.lease && (step.SkipLock? || step.AcquireCancelled?))
      && c.frames <= d.frames && (BeforeStart(d.phase) ==> BeforeStart(c.phase) || c.frames < d.frames)
      && (step.Started? ==> c.phase.Starting? && d.frames == c.frames && !BeforeStart(d.phase))
  {
  }

  /** What the steps that leave the acquire loop or start a process need. */
  lemma Guards(s: Sup, step: Step)
    requires Enabled(s, step)
    ensures step.Acquired? ==> step.i < |s.chains| && s.chains[step.i].locked && step.lease !in s.origins
    ensures step.SkipLock? ==> step.i < |s.chains| && !s.chains[step.i].locked
    ensures step.AcquireCancelled? ==> s.ctxDone
    ensures step.Started? ==> !s.ctxDone && step.pid !in s.spawnedBy
  {
    hide Leaves;
  }

  // ---------- Every step keeps the invariant ----------

  /** Chains keep their name and their lock. */
  lemma NamesStay(s: Sup, step: Step, j: nat)
    requires Enabled(s, step) && j < |s.chains|
    ensures |Next(s, step).chains| == |s.chains|
    ensures Next(s, step).chains[j].name == s.chains[j].name && Next(s, step).chains[j].locked == s.chains[j].locked
  {
    OthersStay(s, step, j);
    hide Next, Enabled, Mover, Leaves;
    if Mover(s, step) == Some(j) {
      MovedKeeps(s.shutdown, s.chains[j].name in s.killed, s.chains[j], step);
    }
    hide Moved;
  }

  lemma SameLength(s: Sup, step: Step)
    requires Enabled(s, step)
    ensures |Next(s, step).chains| == |s.chains|
  {
    hide Guard, Leaves, Mover, Table, SpawnedBy, Origins, KilledNames, Pids, Cancels, Cancelled, Signalled, Moved;
  }

  lemma ShadowsStay(s: Sup, step: Step, i: nat)
    requires Enabled(s, step) && i < |s.chains|
    ensures |Next(s, step).chains| == |s.chains|
    ensures Shadowed(Next(s, step), i) <==> Shadowed(s, i)
  {
    var t := Next(s, step);
    SameLength(s, step);
    hide Next, Enabled;
    forall j | 0 <= j < |s.chains| ensures t.chains[j].name == s.chains[j].name {
      NamesStay(s, step, j);
    }
  }

  lemma SumAfter(f: Chain -> nat, s: Sup, step: Step)
    requires Enabled(s, step)
    ensures Mover(s, step).None? ==> Sum(f, Next(s, step).chains) == Sum(f, s.chains)
    ensures Mover(s, step).Some? ==>
      var i := Mover(s, step).value;
      && i < |s.chains| && Leaves(s.chains[i].phase, step)
      && Sum(f, Next(s, step).chains) == Sum(f, s.chains) - f(s.chains[i]) + f(MovedIn(s, i, step))
  {
    if Mover(s, step).Some? {
      var i := Mover(s, step).value;
      MoverLeaves(s, step);
      SumUpdate(f, s.chains, i, MovedIn(s, i, step));
    }
    hide Sum, Guard, Leaves, Mover, Table, SpawnedBy, Origins, KilledNames, Pids, Cancels, Cancelled, Signalled, Moved;
  }

  /** A step that moves no chain changes the counter with the scheduler's and main's tokens only. */
  lemma TokensAlone(s: Sup, step: Step)
    requires Enabled(s, step)
    ensures Mover(s, step).None? ==>
      Tokens(step) == (if step.MainAdd? then 1 else 0) - (if step.SchedulerDone? then 1 else 0)
    ensures step.MainAdd? ==> !s.mainAdded && Mover(s, step).None?
    ensures step.SchedulerDone? ==> !s.schedulerDone && s.scheduled == |s.chains| && Mover(s, step).None?
    ensures step.Schedule? ==> !s.schedulerDone && Mover(s, step) == Some(s.scheduled)
    ensures Mover(s, step) == Some(s.scheduled) && !step.Schedule? ==> Leaves(s.chains[s.scheduled].phase, step)
  {
  }

  lemma CountedStep(s: Sup, step: Step)
    requires Counted(s) && Scheduling(s) && Enabled(s, step)
    ensures Counted(Next(s, step))
  {
    hide Sum, Enabled, Leaves, Mover, Tokens, Moved, Chains, Table, SpawnedBy, Origins, KilledNames;
    hide Pids, Cancels, Cancelled, Signalled;
    SumAfter(Depth, s, step);
    TokensAlone(s, step);
    if Mover(s, step).Some? {
      var i := Mover(s, step).value;
      MovedDepth(s.shutdown, s.chains[i].name in s.killed, s.chains[i], step);
    }
  }

  lemma SchedulingStep(s: Sup, step: Step)
    requires Scheduling(s) && Enabled(s, step)
    ensures Scheduling(Next(s, step))
  {
    hide Enabled, Mover, Moved, Leaves;
    var t := Next(s, step);
    SameLength(s, step);
    TokensAlone(s, step);
    assert t.scheduled == s.scheduled + (if step.Schedule? then 1 else 0);
    assert t.schedulerDone == (s.schedulerDone || step.SchedulerDone?);
    if step.Schedule? {
      MoverLeaves(s, step);
    }
    hide Next;
    forall j | 0 <= j < |t.chains|
      ensures t.chains[j].phase.NotScheduled? <==> t.scheduled <= j
      ensures t.chains[j].depth == 0 <==> t.chains[j].phase.NotScheduled? || t.chains[j].phase.Ended?
    {
      OthersStay(s, step, j);
      if Mover(s, step) == Some(j) {
        MovedDepth(s.shutdown, s.chains[j].name in s.killed, s.chains[j], step);
      }
    }
  }

  lemma MovedStack(shutdown: bool, killed: bool, c: Chain, step: Step)
    requires Leaves(c.phase, step) && StackedChain(c)
    ensures StackedChain(Moved(shutdown, killed, c, step))
  {
  }

  lemma StackedStep(s: Sup, step: Step)
    requires Stacked(s) && Enabled(s, step)
    ensures Stacked(Next(s, step))
  {
    hide Next, Enabled, Mover, Moved, Leaves, StackedChain;
    var t := Next(s, step);
    SameLength(s, step);
    forall i | 0 <= i < |t.chains| ensures StackedChain(t.chains[i]) {
      OthersStay(s, step, i);
      if Mover(s, step) == Some(i) {
        MovedStack(s.shutdown, s.chains[i].name in s.killed, s.chains[i], step);
      }
    }
  }

  /** How a step changes the process table. */
  lemma TableAfter(s: Sup, step: Step)
    requires Enabled(s, step)
    ensures var t := Next(s, step);
      && (forall pid :: pid in t.table <==>
            || (pid in s.table && !(step.Reap? && pid == s.chains[step.i].phase.pid))
            || (step.Started? && pid == step.pid))
      && (forall pid | pid in t.table ::
            t.table[pid].owner == if step.Started? && pid == step.pid then step.i else s.table[pid].owner)
      && t.spawnedBy == SpawnedBy(s, step)
    ensures step.Started? || step.Reap? ==> Mover(s, step) == Some(step.i) && step.i < |s.chains|
    ensures step.Reap? ==> s.chains[step.i].phase.Running?
  {
    assert Next(s, step).table == Table(s, step);
    hide Next;
  }

  /** How a step changes the child of a chain. */
  lemma ChildAfter(s: Sup, step: Step, i: nat)
    requires Enabled(s, step) && i < |s.chains|
    ensures |Next(s, step).chains| == |s.chains|
    ensures var before, after := s.chains[i].phase, Next(s, step).chains[i].phase;
      if step.Started? && step.i == i then !HasChild(before) && after == Registering(step.pid)
      else if step.Reap? && step.i == i then before.Running? && !HasChild(after)
      else (HasChild(before) <==> HasChild(after)) && (HasChild(before) ==> after.pid == before.pid)
  {
    hide Next, Enabled, Mover, Moved, Leaves, HasChild;
    OthersStay(s, step, i);
    TableAfter(s, step);
    if Mover(s, step) == Some(i) {
      MovedChild(s.shutdown, s.chains[i].name in s.killed, s.chains[i], step);
      StartMoves(s, step);
    }
  }

  lemma StartMoves(s: Sup, step: Step)
    ensures step.Started? || step.Reap? ==> Mover(s, step) == Some(step.i)
  {
  }

  lemma ChildrenStep(s: Sup, step: Step)
    requires Children(s) && Enabled(s, step)
    ensures Children(Next(s, step))
  {
    hide Next, Enabled, Mover, Moved, Leaves;
    var t := Next(s, step);
    TableAfter(s, step);
    SameLength(s, step);
    Guards(s, step);
    forall pid | pid in t.table
      ensures t.table[pid].owner < |t.chains| && HasChild(t.chains[t.table[pid].owner].phase)
      ensures t.chains[t.table[pid].owner].phase.pid == pid
      ensures pid in t.spawnedBy && t.spawnedBy[pid] == t.table[pid].owner
    {
      ChildAfter(s, step, t.table[pid].owner);
    }
    forall i | 0 <= i < |t.chains| && HasChild(t.chains[i].phase)
      ensures t.chains[i].phase.pid in t.table && t.table[t.chains[i].phase.pid].owner == i
    {
      ChildAfter(s, step, i);
    }
  }

  /** How a step changes what is recorded under a name that is not shared. */
  lemma RecordsAfter(s: Sup, step: Step, i: nat)
    requires Enabled(s, step) && i < |s.chains| && !Shadowed(s, i)
    ensures var name, t := s.chains[i].name, Next(s, step);
      && (step == Register(i) ==>
            s.chains[i].phase.Registering? && name in t.pids && t.pids[name] == s.chains[i].phase.pid)
      && (step != Register(i) ==>
            (name in t.pids <==> name in s.pids) && (name in s.pids ==> t.pids[name] == s.pids[name]))
      && (step == Arm(i) ==>
            s.chains[i].phase.Arming? && name in t.cancels && t.cancels[name] == s.chains[i].phase.pid)
      && (step != Arm(i) ==>
            (name in t.cancels <==> name in s.cancels) && (name in s.cancels ==> t.cancels[name] == s.cancels[name]))
    ensures step.Register? || step.Arm? ==> Mover(s, step) == Some(step.i)
  {
    assert Next(s, step).pids == Pids(s, step) && Next(s, step).cancels == Cancels(s, step);
    hide Next;
  }

  lemma RecordedStep(s: Sup, step: Step)
    requires Recorded(s) && Enabled(s, step)
    ensures Recorded(Next(s, step))
  {
    hide Next, Enabled, Mover, Moved, Leaves, Shadowed;
    var t := Next(s, step);
    SameLength(s, step);
    forall i | 0 <= i < |t.chains| && !Shadowed(t, i)
      ensures var c := t.chains[i];
        && (c.phase.Arming? || c.phase.Running? ==> c.name in t.pids && t.pids[c.name] == c.phase.pid)
        && (c.phase.Running? ==> c.name in t.cancels && t.cancels[c.name] == c.phase.pid)
    {
      ShadowsStay(s, step, i);
      NamesStay(s, step, i);
      OthersStay(s, step, i);
      RecordsAfter(s, step, i);
      if Mover(s, step) == Some(i) {
        MovedRecords(s.shutdown, s.chains[i].name in s.killed, s.chains[i], step);
      }
    }
  }

  /** How a step changes the pids recorded: only by registering a child, under its chain's name. */
  lemma PidsAfter(s: Sup, step: Step)
    requires Enabled(s, step)
    ensures !step.Register? ==> Next(s, step).pids == s.pids
    ensures step.Register? ==>
      && step.i < |s.chains| && s.chains[step.i].phase.Registering?
      && Next(s, step).pids == s.pids[s.chains[step.i].name := s.chains[step.i].phase.pid]
  {
    assert Next(s, step).pids == Pids(s, step);
    hide Next;
  }

  /** A chain comes to register a pid only by starting it, and stops doing so when it has registered it. */
  lemma RegisteringAfter(s: Sup, step: Step, i: nat, pid: Pid)
    requires Enabled(s, step) && i < |s.chains|
    ensures |Next(s, step).chains| == |s.chains|
    ensures Next(s, step).chains[i].phase == Registering(pid) ==>
      step != Register(i) && (s.chains[i].phase == Registering(pid) || (step == Started(i, pid) && pid !in s.spawnedBy))
  {
    OthersStay(s, step, i);
    Guards(s, step);
    StartMoves(s, step);
    hide Next, Enabled, Mover, Moved, Leaves;
    if Mover(s, step) == Some(i) {
      MovedChild(s.shutdown, s.chains[i].name in s.killed, s.chains[i], step);
      MovedRegisters(s.shutdown, s.chains[i].name in s.killed, s.chains[i], step);
    }
    RegisterMoves(s, step);
  }

  lemma MovedRegisters(shutdown: bool, killed: bool, c: Chain, step: Step)
    requires Leaves(c.phase, step)
    ensures step.Register? ==> Moved(shutdown, killed, c, step).phase.Arming?
    ensures Moved(shutdown, killed, c, step).phase.Registering? ==> step.Started?
  {
  }

  lemma RegisterMoves(s: Sup, step: Step)
    ensures step.Register? ==> Mover(s, step) == Some(step.i)
  {
  }

  lemma NamedStep(s: Sup, step: Step)
    requires Named(s) && Children(s) && Enabled(s, step)
    ensures Named(Next(s, step))
  {
    var t := Next(s, step);
    SameLength(s, step);
    PidsAfter(s, step);
    TableAfter(s, step);
    Guards(s, step);
    hide Next, Enabled, Mover;
    forall name | name in t.pids
      ensures t.pids[name] in t.spawnedBy && t.spawnedBy[t.pids[name]] < |t.chains|
      ensures t.chains[t.spawnedBy[t.pids[name]]].name == name
      ensures forall i | 0 <= i < |t.chains| :: t.chains[i].phase != Registering(t.pids[name])
    {
      var pid := t.pids[name];
      assert pid in s.spawnedBy && s.spawnedBy[pid] < |s.chains| && s.chains[s.spawnedBy[pid]].name == name;
      NamesStay(s, step, s.spawnedBy[pid]);
      forall i | 0 <= i < |t.chains| ensures t.chains[i].phase != Registering(pid) {
        RegisteringAfter(s, step, i, pid);
      }
    }
  }

  lemma CancelsAfter(s: Sup, step: Step)
    requires Enabled(s, step)
    ensures !step.Arm? ==> Next(s, step).cancels == s.cancels
    ensures step.Arm? ==>
      && step.i < |s.chains| && s.chains[step.i].phase.Arming?
      && Next(s, step).cancels == s.cancels[s.chains[step.i].name := s.chains[step.i].phase.pid]
  {
    assert Next(s, step).cancels == Cancels(s, step);
    hide Next;
  }

  lemma CancelsNamedStep(s: Sup, step: Step)
    requires CancelsNamed(s) && Children(s) && Enabled(s, step)
    ensures CancelsNamed(Next(s, step))
  {
    var t := Next(s, step);
    SameLength(s, step);
    CancelsAfter(s, step);
    TableAfter(s, step);
    Guards(s, step);
    hide Next, Enabled, Mover;
    forall name | name in t.cancels
      ensures t.cancels[name] in t.spawnedBy && t.spawnedBy[t.cancels[name]] < |t.chains|
      ensures t.chains[t.spawnedBy[t.cancels[name]]].name == name
    {
      var pid := t.cancels[name];
      assert pid in s.spawnedBy && s.spawnedBy[pid] < |s.chains| && s.chains[s.spawnedBy[pid]].name == name;
      NamesStay(s, step, s.spawnedBy[pid]);
    }
  }

  lemma RoutinesStep(s: Sup, step: Step)
    requires Routines(s) && Children(s) && Enabled(s, step)
    ensures Routines(Next(s, step))
  {
    hide Next, Enabled, Mover, Moved, Leaves;
    var t := Next(s, step);
    TableAfter(s, step);
    SameLength(s, step);
    Guards(s, step);
    forall i | 0 <= i < |t.chains|
      ensures forall pid | pid in t.chains[i].routines :: pid in t.spawnedBy && t.spawnedBy[pid] == i
      ensures t.chains[i].phase.Running? ==> t.chains[i].phase.pid in t.chains[i].routines
    {
      OthersStay(s, step, i);
      if Mover(s, step) == Some(i) {
        MovedRecords(s.shutdown, s.chains[i].name in s.killed, s.chains[i], step);
      }
    }
  }

  /** Cancelled routines stay cancelled, and a frame that cancels its own cancels those of its last process. */
  lemma CancelledAfter(s: Sup, step: Step)
    requires Enabled(s, step)
    ensures s.cancelled <= Next(s, step).cancelled
    ensures step.CancelOwn? ==>
      Mover(s, step) == Some(step.i) && step.i < |s.chains| && OwnPid(s.chains[step.i]) <= Next(s, step).cancelled
  {
    assert Next(s, step).cancelled == Cancelled(s, step);
    hide Next;
  }

  lemma PastCancelledStep(s: Sup, step: Step)
    requires PastCancelled(s) && Enabled(s, step)
    ensures PastCancelled(Next(s, step))
  {
    hide Next, Enabled, Mover, Moved, Leaves, RoutinesGone;
    var t := Next(s, step);
    SameLength(s, step);
    CancelledAfter(s, step);
    forall i, a | 0 <= i < |t.chains| && 0 <= a < |t.chains[i].starts|
                  && (a + 1 < |t.chains[i].starts| || RoutinesGone(t.chains[i].phase))
      ensures t.chains[i].starts[a].pid in t.cancelled
    {
      OthersStay(s, step, i);
      if Mover(s, step) == Some(i) {
        MovedStarts(s.shutdown, s.chains[i].name in s.killed, s.chains[i], step);
      }
    }
  }

  lemma FlagsAfter(s: Sup, step: Step)
    requires Enabled(s, step)
    ensures s.shutdown ==> Next(s, step).shutdown
    ensures s.ctxDone ==> Next(s, step).ctxDone
    ensures !step.SetDown? && !step.Interrupt? ==> Next(s, step).shutdown == s.shutdown
  {
    hide Enabled, Chains, Origins, Table, SpawnedBy, KilledNames, Pids, Cancels, Cancelled, Signalled;
  }

  lemma NotDroppedStep(s: Sup, step: Step)
    requires NotDropped(s) && Enabled(s, step)
    ensures NotDropped(Next(s, step))
  {
    hide Next, Enabled, Mover, Moved, Leaves, Leaving;
    var t := Next(s, step);
    SameLength(s, step);
    FlagsAfter(s, step);
    forall i | 0 <= i < |t.chains| ensures Leaving(t.chains[i].phase) ==> t.shutdown {
      OthersStay(s, step, i);
      if Mover(s, step) == Some(i) {
        MovedLeaves(s.shutdown, s.chains[i].name in s.killed, s.chains[i], step);
      }
    }
  }

  lemma OriginsAfter(s: Sup, step: Step)
    requires Enabled(s, step)
    ensures s.ctxDone ==> Next(s, step).ctxDone
    ensures Next(s, step).origins == Origins(s, step)
    ensures OriginsGrow(s, Next(s, step))
  {
    FlagsAfter(s, step);
    Guards(s, step);
    assert Next(s, step).origins == Origins(s, step);
    hide Next, Enabled;
  }

  lemma FrameInPlaceStep(s: Sup, step: Step, j: nat)
    requires Enabled(s, step) && j < |s.chains| && FrameInPlace(s, j)
    ensures |Next(s, step).chains| == |s.chains| && FrameInPlace(Next(s, step), j)
  {
    hide Next, Enabled, Mover, Moved, Leaves;
    OthersStay(s, step, j);
    NamesStay(s, step, j);
    OriginsAfter(s, step);
    Guards(s, step);
    AcquireMoves(s, step);
    if Mover(s, step) == Some(j) {
      MovedLease(s.shutdown, s.chains[j].name in s.killed, s.chains[j], step);
    }
  }

  lemma AcquireMoves(s: Sup, step: Step)
    requires Enabled(s, step)
    ensures step.Acquired? || step.SkipLock? || step.Started? ==> Mover(s, step) == Some(step.i)
  {
    hide Enabled;
  }

  /** A process about to be started has a frame of its own and, if locked, a lease issued to that frame. */
  lemma StartedInPlace(s: Sup, step: Step, j: nat)
    requires Enabled(s, step) && Mover(s, step) == Some(j) && step.Started? && j < |s.chains| && FrameInPlace(s, j)
    ensures var c := s.chains[j];
      && BeforeStart(c.phase) && (c.locked ==> c.lease.Some?)
      && (c.lease.Some? ==> c.lease.value in s.origins && s.origins[c.lease.value] == Origin(j, c.frames))
  {
  }

  ghost predicate OriginsGrow(s: Sup, t: Sup) {
    forall l: LeaseId | l in s.origins :: l in t.origins && t.origins[l] == s.origins[l]
  }

  lemma OriginKept(s: Sup, t: Sup, l: LeaseId)
    requires OriginsGrow(s, t) && l in s.origins
    ensures l in t.origins && t.origins[l] == s.origins[l]
  {
  }

  /** A start stays in place while its chain moves on: its frame is not reused, and its lease's origin is kept. */
  lemma StartStaysInPlace(s: Sup, t: Sup, j: nat, c: Chain, d: Chain, a: nat)
    requires a < |c.starts| && StartInPlace(s, j, c, a) && c.starts <= d.starts && d.locked == c.locked
    requires OriginsGrow(s, t)
    requires c.frames <= d.frames && (BeforeStart(d.phase) ==> BeforeStart(c.phase) || c.frames < d.frames)
    requires a + 1 == |c.starts| < |d.starts| ==> BeforeStart(c.phase) && d.starts[a + 1].frame == c.frames
    ensures StartInPlace(t, j, d, a)
  {
    assert d.starts[a] == c.starts[a] && (a + 1 < |c.starts| ==> d.starts[a + 1] == c.starts[a + 1]);
    if c.starts[a].lease.Some? {
      OriginKept(s, t, c.starts[a].lease.value);
    }
  }

  lemma StartInPlaceStep(s: Sup, step: Step, j: nat, a: nat)
    requires Enabled(s, step) && j < |s.chains| == |Next(s, step).chains| && a < |Next(s, step).chains[j].starts|
    requires FrameInPlace(s, j) && forall b | 0 <= b < |s.chains[j].starts| :: StartInPlace(s, j, s.chains[j], b)
    ensures StartInPlace(Next(s, step), j, Next(s, step).chains[j], a)
  {
    hide Next, Enabled, Mover, Moved, Leaves, RoutinesGone, Origins, FrameInPlace;
    var c, d := s.chains[j], Next(s, step).chains[j];
    OthersStay(s, step, j);
    NamesStay(s, step, j);
    OriginsAfter(s, step);
    if Mover(s, step) == Some(j) {
      MovedStarts(s.shutdown, c.name in s.killed, c, step);
      MovedLease(s.shutdown, c.name in s.killed, c, step);
      if step.Started? {
        StartedInPlace(s, step, j);
        if c.lease.Some? {
          OriginKept(s, Next(s, step), c.lease.value);
        }
      }
    }
    if a < |c.starts| {
      assert StartInPlace(s, j, c, a);
      StartStaysInPlace(s, Next(s, step), j, c, d, a);
    }
  }

  lemma LeasesInPlaceStep(s: Sup, step: Step)
    requires LeasesInPlace(s) && Enabled(s, step)
    ensures LeasesInPlace(Next(s, step))
  {
    hide Next, Enabled, Mover, FrameInPlace, StartInPlace;
    var t := Next(s, step);
    SameLength(s, step);
    forall j | 0 <= j < |t.chains|
      ensures FrameInPlace(t, j) && forall a | 0 <= a < |t.chains[j].starts| :: StartInPlace(t, j, t.chains[j], a)
    {
      FrameInPlaceStep(s, step, j);
      forall a | 0 <= a < |t.chains[j].starts| ensures StartInPlace(t, j, t.chains[j], a) {
        StartInPlaceStep(s, step, j, a);
      }
    }
  }

  lemma CancelExplainedStep(s: Sup, step: Step)
    requires CancelExplained(s) && Enabled(s, step)
    ensures CancelExplained(Next(s, step))
  {
    hide Mover, Leaves, Chains, Table, SpawnedBy, Origins, KilledNames, Pids, Cancels, Cancelled, Signalled;
  }

  lemma InvStep(s: Sup, step: Step)
    requires Inv(s) && Enabled(s, step)
    ensures Inv(Next(s, step))
  {
    hide Next, Enabled, Counted, Scheduling, Stacked, Children, Recorded, Named, CancelsNamed, Routines, PastCancelled;
    hide NotDropped;
    hide LeasesInPlace, CancelExplained;
    CountedStep(s, step);
    SchedulingStep(s, step);
    StackedStep(s, step);
    ChildrenStep(s, step);
    RecordedStep(s, step);
    NamedStep(s, step);
    CancelsNamedStep(s, step);
    RoutinesStep(s, step);
    PastCancelledStep(s, step);
    NotDroppedStep(s, step);
    LeasesInPlaceStep(s, step);
    CancelExplainedStep(s, step);
  }

  lemma {:induction false} InvRun(s: Sup, steps: seq<Step>)
    requires Inv(s) && Valid(s, steps)
    ensures Inv(Exec(s, steps))
    decreases |steps|
  {
    if steps != [] {
      InvStep(s, steps[0]);
      hide Inv, Next, Enabled;
      InvRun(Next(s, steps[0]), steps[1..]);
    }
  }
}
