/**
 The health checker of one process: the loop that runs the probes round after round, counts failures,
 kills the process at the threshold, and runs the post-start hook once.

 A `Round` is what one turn of the loop meets: what other routines wrote to the shared maps since the last
 turn, whether the routine was cancelled or the wrapper is shutting down, one result per configured probe,
 and the result the hook would have if it runs now. The loop is proved against a fold over rounds, and the
 fold against what it means.
 */
module Probes {
  import opened Wrappers
  import opened Health

  const PROBE_FAILURE_THRESHOLD := 3

  /** `configured` probes, the failure threshold as written, whether there is a post-start hook and a shared lock. */
  datatype Config = Config(name: string, configured: nat, threshold: int, hook: bool, lock: bool)

  /** The status entries and the killed marks of all commands. */
  datatype Maps = Maps(status: map<string, bool>, killed: map<string, bool>)

  /**
   A write to the shared maps by some other routine, to any command's entry. One that falls within a round
   counts as made before the round, if the round overwrites it, and otherwise as made after it.
   */
  datatype MapWrite =
    | SetStatus(name: string, healthy: bool)
    | DropStatus(name: string)
    | SetMark(name: string, value: bool)

  datatype Round = Round(others: seq<MapWrite>, cancelled: bool, shutdown: bool, results: seq<bool>, hookResult: bool)

  datatype Stop = Cancelled | ShuttingDown | NothingToProbe | Killed | HookFailed

  /** The loop's variables, and the shared maps as they stand. */
  datatype Runner = Runner(count: nat, hookDone: bool, hookRuns: nat, maps: Maps, stopped: Option<Stop>)

  function Fresh(maps: Maps): Runner {
    Runner(0, false, 0, maps, None)
  }

  function Written(maps: Maps, w: MapWrite): Maps {
    match w
    case SetStatus(name, healthy) => maps.(status := maps.status[name := healthy])
    case DropStatus(name) => maps.(status := maps.status - {name})
    case SetMark(name, value) => maps.(killed := maps.killed[name := value])
  }

  function WrittenAll(maps: Maps, ws: seq<MapWrite>): Maps {
    if ws == [] then maps else Written(WrittenAll(maps, ws[..|ws| - 1]), ws[|ws| - 1])
  }

  function Max(a: int, b: int): int {
    if a < b then b else a
  }

  /** The number of failures that kills: a threshold below one acts as one. */
  function Limit(cfg: Config): (n: nat)
    ensures n >= 1
  {
    Max(1, cfg.threshold)
  }

  function Fails(results: seq<bool>): nat {
    if results == [] then 0 else Fails(results[..|results| - 1]) + if results[|results| - 1] then 0 else 1
  }

  predicate AllPass(rd: Round) {
    Fails(rd.results) == 0
  }

  function HookValue(cfg: Config, rd: Round): bool {
    !cfg.hook || rd.hookResult
  }

  function SettingStatus(cfg: Config, m: Runner, healthy: bool): Runner {
    m.(maps := Written(m.maps, SetStatus(cfg.name, healthy)))
  }

  /** A process killed for its probes is marked, and gives up its status entry if it holds a shared lock. */
  function KillWrites(cfg: Config, maps: Maps): Maps {
    Maps(if cfg.lock then maps.status - {cfg.name} else maps.status[cfg.name := false], maps.killed[cfg.name := true])
  }

  /** One turn of the loop, once the others have written. */
  function Probed(cfg: Config, m: Runner, rd: Round): Runner {
    var fails := Fails(rd.results);
    if rd.cancelled then m.(stopped := Some(Cancelled))
    else if rd.shutdown then m.(stopped := Some(ShuttingDown))
    else if cfg.configured == 0 then
      SettingStatus(cfg, m, HookValue(cfg, rd)).(hookRuns := m.hookRuns + 1, stopped := Some(NothingToProbe))
    else if fails > 0 && m.count + fails >= cfg.threshold then
      m.(count := Max(m.count + 1, cfg.threshold), maps := KillWrites(cfg, m.maps), stopped := Some(Killed))
    else if fails > 0 then SettingStatus(cfg, m, false).(count := m.count + fails)
    else if !cfg.hook then SettingStatus(cfg, m, true).(count := 0)
    else if m.hookDone then m
    else if rd.hookResult then SettingStatus(cfg, m, true).(count := 0, hookDone := true, hookRuns := m.hookRuns + 1)
    else
      m.(hookDone := true, hookRuns := m.hookRuns + 1, stopped := Some(HookFailed),
         maps := Written(SettingStatus(cfg, m, false).maps, SetMark(cfg.name, true)))
  }

  function After(cfg: Config, m: Runner, rd: Round): Runner {
    Probed(cfg, m.(maps := WrittenAll(m.maps, rd.others)), rd)
  }

  /** The loop from `m` over the rounds, up to the one that stops it. */
  function Loop(cfg: Config, m: Runner, rounds: seq<Round>): Runner {
    if rounds == [] then m
    else
      var before := Loop(cfg, m, rounds[..|rounds| - 1]);
      if before.stopped.Some? then before else After(cfg, before, rounds[|rounds| - 1])
  }

  // ---------- The loop itself ----------

  function MapsOf(state: State): Maps
    reads state
  {
    Maps(state.status, state.killed)
  }

  /** Other routines write to the shared maps. */
  method OthersWrite(state: State, writes: seq<MapWrite>)
    requires state.Valid()
    modifies state`status, state`killed
    ensures state.Valid() && MapsOf(state) == WrittenAll(old(MapsOf(state)), writes)
  {
    for i := 0 to |writes|
      invariant state.Valid() && MapsOf(state) == WrittenAll(old(MapsOf(state)), writes[..i])
    {
      assert writes[..i + 1][..i] == writes[..i];
      match writes[i] {
        case SetStatus(name, healthy) => state.SetState(name, healthy);
        case DropStatus(name) => state.RemoveState(name);
        case SetMark(name, value) => state.SetKillState(name, value);
      }
    }
    assert writes[..|writes|] == writes;
  }

  /** `ProbeRunner`, on the rounds it meets; `stopped` is None if it is still looping after them. */
  method ProbeRunner(state: State, cfg: Config, rounds: seq<Round>)
    returns (stopped: Option<Stop>, failureThreshold: nat, hookRuns: nat)
    requires state.Valid()
    requires forall rd | rd in rounds :: |rd.results| == cfg.configured
    modifies state`status, state`killed
    ensures state.Valid()
    ensures var m := Loop(cfg, Fresh(old(MapsOf(state))), rounds);
      && stopped == m.stopped && failureThreshold == m.count && hookRuns == m.hookRuns
      && MapsOf(state) == m.maps
  {
    failureThreshold, hookRuns, stopped := 0, 0, None;
    var hookExecuted := false;
    ghost var begun := Fresh(MapsOf(state));
    ghost var m := begun;
    assert Loop(cfg, begun, rounds[..0]) == begun && rounds[..|rounds|] == rounds;
    hide Loop, Fails, State.Valid, WrittenAll;
    for i := 0 to |rounds|
      invariant state.Valid() && m == Loop(cfg, begun, rounds[..i]) && m.stopped.None? && stopped.None?
      invariant failureThreshold == m.count && hookRuns == m.hookRuns && hookExecuted == m.hookDone
      invariant MapsOf(state) == m.maps
    {
      LoopAppend(cfg, begun, rounds, i);
      m := After(cfg, m, rounds[i]);
      OthersWrite(state, rounds[i].others);
      stopped, failureThreshold, hookRuns, hookExecuted :=
        ProbeRound(state, cfg, rounds[i], failureThreshold, hookRuns, hookExecuted);
      if stopped.Some? {
        LoopStopped(cfg, begun, rounds, i + 1);
        return;
      }
    }
  }

  /** The body of the loop: one round. */
  method ProbeRound(state: State, cfg: Config, rd: Round, before: nat, runs: nat, hookDone: bool)
    returns (stopped: Option<Stop>, failureThreshold: nat, hookRuns: nat, hookExecuted: bool)
    requires state.Valid() && |rd.results| == cfg.configured
    modifies state`status, state`killed
    ensures state.Valid()
    ensures Probed(cfg, Runner(before, hookDone, runs, old(MapsOf(state)), None), rd)
            == Runner(failureThreshold, hookExecuted, hookRuns, MapsOf(state), stopped)
  {
    stopped, failureThreshold, hookRuns, hookExecuted := None, before, runs, hookDone;
    hide Fails, State.Valid;
    if rd.cancelled {
      stopped := Some(Cancelled);
      return;
    }
    if rd.shutdown {
      stopped := Some(ShuttingDown);
      return;
    }
    if cfg.configured == 0 {
      state.SetState(cfg.name, HookValue(cfg, rd));
      stopped, hookRuns := Some(NothingToProbe), hookRuns + 1;
      return;
    }
    var unhealthy, exceeded;
    unhealthy, failureThreshold, exceeded := CheckResults(state, cfg, rd.results, failureThreshold);
    if exceeded {
      stopped := Some(Killed);
      return;
    }
    if unhealthy > 0 {
      state.SetState(cfg.name, false);
    } else if !cfg.hook {
      state.SetState(cfg.name, true);
      failureThreshold := 0;
    } else if !hookExecuted {
      var hookLastState := rd.hookResult;
      state.SetState(cfg.name, hookLastState);
      hookExecuted, hookRuns := true, hookRuns + 1;
      if hookLastState {
        state.SetState(cfg.name, true);
        failureThreshold := 0;
      } else {
        state.SetState(cfg.name, false);
        state.SetKillState(cfg.name, true);
        stopped := Some(HookFailed);
      }
    }
  }

  /**
   The check of one round's results: every failure counts, and the first that brings the counter to the
   threshold marks the process killed and gives up its status entry if it holds a shared lock.
   */
  method CheckResults(state: State, cfg: Config, results: seq<bool>, before: nat)
    returns (unhealthy: nat, failureThreshold: nat, exceeded: bool)
    requires state.Valid()
    modifies state`status, state`killed
    ensures state.Valid()
    ensures exceeded <==> Fails(results) > 0 && before + Fails(results) >= cfg.threshold
    ensures exceeded ==>
      failureThreshold == Max(before + 1, cfg.threshold) && MapsOf(state) == KillWrites(cfg, old(MapsOf(state)))
    ensures !exceeded ==>
      && unhealthy == Fails(results) && failureThreshold == before + unhealthy
      && state.killed == old(state.killed)
      && state.status == if unhealthy > 0 then old(state.status)[cfg.name := false] else old(state.status)
  {
    hide State.Valid, Fails;
    NoneFails();
    unhealthy, failureThreshold := 0, before;
    for k := 0 to |results|
      invariant state.Valid() && unhealthy == Fails(results[..k])
      invariant failureThreshold == before + unhealthy
      invariant unhealthy > 0 ==> failureThreshold < cfg.threshold
      invariant state.status == if unhealthy > 0 then old(state.status)[cfg.name := false] else old(state.status)
      invariant state.killed == old(state.killed)
    {
      FailsNext(results, k);
      if !results[k] {
        unhealthy := unhealthy + 1;
        state.SetState(cfg.name, false);
        failureThreshold := failureThreshold + 1;
        if failureThreshold >= cfg.threshold {
          state.SetKillState(cfg.name, true);
          if cfg.lock {
            state.RemoveState(cfg.name);
          }
          FailsGrow(results, k + 1);
          return unhealthy, failureThreshold, true;
        }
      }
    }
    assert results[..|results|] == results;
    exceeded := false;
  }

  /**
   `HealthChecker`: without a readiness section the hook alone decides the status; otherwise the status
   starts out false, a zero threshold means the default, and the probe loop runs.
   */
  method HealthChecker(state: State, name: string, readiness: Option<Config>, hook: Option<bool>, rounds: seq<Round>)
    returns (stopped: Option<Stop>)
    requires state.Valid()
    requires readiness.Some? ==>
      readiness.value.name == name && forall rd | rd in rounds :: |rd.results| == readiness.value.configured
    modifies state`status, state`killed
    ensures state.Valid()
    ensures readiness.None? ==>
      && stopped == Some(NothingToProbe)
      && MapsOf(state) == Written(old(MapsOf(state)), SetStatus(name, hook != Some(false)))
    ensures readiness.Some? ==>
      var m := Loop(Defaulted(readiness.value), Fresh(Written(old(MapsOf(state)), SetStatus(name, false))), rounds);
      stopped == m.stopped && MapsOf(state) == m.maps
  {
    if readiness.None? {
      state.SetState(name, hook != Some(false));
      return Some(NothingToProbe);
    }
    state.SetState(name, false);
    var count, runs;
    stopped, count, runs := ProbeRunner(state, Defaulted(readiness.value), rounds);
  }

  function Defaulted(cfg: Config): Config {
    if cfg.threshold == 0 then cfg.(threshold := PROBE_FAILURE_THRESHOLD) else cfg
  }

  lemma LoopAppend(cfg: Config, m: Runner, rounds: seq<Round>, i: nat)
    requires i < |rounds|
    ensures Loop(cfg, m, rounds[..i + 1]) ==
            var before := Loop(cfg, m, rounds[..i]);
            if before.stopped.Some? then before else After(cfg, before, rounds[i])
  {
    assert rounds[..i + 1][..i] == rounds[..i];
  }

  /** Rounds after the one that stops the loop are never looked at. */
  lemma {:induction false} LoopStopped(cfg: Config, m: Runner, rounds: seq<Round>, i: nat)
    requires i <= |rounds| && Loop(cfg, m, rounds[..i]).stopped.Some?
    ensures Loop(cfg, m, rounds) == Loop(cfg, m, rounds[..i])
    decreases |rounds|
  {
    if i == |rounds| {
      assert rounds[..i] == rounds;
    } else {
      assert rounds[..|rounds| - 1][..i] == rounds[..i];
      LoopStopped(cfg, m, rounds[..|rounds| - 1], i);
    }
  }

  lemma NoneFails()
    ensures Fails([]) == 0
  {
  }

  lemma FailsNext(results: seq<bool>, k: nat)
    requires k < |results|
    ensures Fails(results[..k + 1]) == Fails(results[..k]) + if results[k] then 0 else 1
  {
    assert results[..k + 1][..k] == results[..k];
  }

  lemma {:induction false} FailsGrow(results: seq<bool>, k: nat)
    requires k <= |results|
    ensures Fails(results[..k]) <= Fails(results)
    decreases |results|
  {
    if k == |results| {
      assert results[..k] == results;
    } else {
      assert results[..|results| - 1][..k] == results[..k];
      FailsGrow(results[..|results| - 1], k);
    }
  }
}
